/** The chunk record that flows from the splitter through id assignment into
    the vector store, and the two textual keys built from it: the page id
    `"<source>:<page>"` and the chunk id `"<source>:<page>:<index>"`. */
module Documents {
  import opened Text

  datatype Option<T> = None | Some(value: T)

  /** The loader's page number of a chunk, or nothing when its metadata has
      none. Python renders a missing value as `None` inside an f-string. */
  datatype Page = NoPage | PageNumber(n: nat)

  /** A LangChain `Document` chunk: its text and the metadata entries the
      core reads (`source`, `page`) or writes (`id`). */
  datatype Chunk = Chunk(pageContent: string, source: string, page: Page, id: Option<string>)

  /** The structured form of a chunk id: the triple it is rendered from. */
  datatype ChunkKey = ChunkKey(source: string, page: Page, index: nat)

  function PageText(p: Page): (s: string)
    ensures ':' !in s
    ensures |s| > 0 && (IsDigit(s[0]) <==> p.PageNumber?)
  {
    match p
    case NoPage => "None"
    case PageNumber(n) => NoDigitsIn(NatToString(n), ':'); NatToString(n)
  }

  /** The page id: the source, a colon, the rendered page. */
  function PageId(source: string, page: Page): (r: string)
  {
    source + ":" + PageText(page)
  }

  /** The chunk id a chunk is stored under: its page id, a colon, the decimal index. */
  function RenderId(k: ChunkKey): (r: string)
    ensures var p := PageId(k.source, k.page);
            |r| > |p| + 1 && r[..|p|] == p && r[|p|] == ':'
  {
    PageId(k.source, k.page) + ":" + NatToString(k.index)
  }

  /** The chunk id reads back as its triple's index: after the page id and
      the colon come only decimal digits, and they denote the index. */
  lemma RenderIdIndexReadsBack(k: ChunkKey)
    ensures var p := PageId(k.source, k.page);
            var r := RenderId(k);
            && (forall i :: |p| < i < |r| ==> IsDigit(r[i]))
            && DigitsValue(r[|p| + 1..]) == k.index
  {
    var p := PageId(k.source, k.page);
    assert RenderId(k)[|p| + 1..] == NatToString(k.index);
    NatToStringValue(k.index);
  }

  lemma PageTextInjective(p: Page, q: Page)
    requires PageText(p) == PageText(q)
    ensures p == q
  {
    if p.PageNumber? {
      NatToStringInjective(p.n, q.n);
    }
  }

  /** Distinct pages have distinct page ids, even when a source name holds colons. */
  lemma PageIdInjective(s1: string, p1: Page, s2: string, p2: Page)
    requires PageId(s1, p1) == PageId(s2, p2)
    ensures s1 == s2 && p1 == p2
  {
    SplitAtLast(s1, PageText(p1), s2, PageText(p2), ':');
    PageTextInjective(p1, p2);
  }

  /** Distinct triples have distinct chunk ids: uniqueness of the triple
      carries over to the rendered string. */
  lemma RenderIdInjective(k1: ChunkKey, k2: ChunkKey)
    requires RenderId(k1) == RenderId(k2)
    ensures k1 == k2
  {
    NoDigitsIn(NatToString(k1.index), ':');
    NoDigitsIn(NatToString(k2.index), ':');
    SplitAtLast(PageId(k1.source, k1.page), NatToString(k1.index),
                PageId(k2.source, k2.page), NatToString(k2.index), ':');
    PageIdInjective(k1.source, k1.page, k2.source, k2.page);
    NatToStringInjective(k1.index, k2.index);
  }
}
