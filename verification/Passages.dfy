/** Cutting a document's tokens into overlapping, title-aware passages. */
module Passages {
  const CEILING: nat := 420
  const RESERVED: nat := 4
  const TITLE_LIMIT: nat := 80
  const CONTENT_FLOOR: nat := 256
  const OVERLAP: nat := 48

  /** A document as the tokenizer sees it, its title being its first non-blank line or else its id. */
  datatype Document = Document(id: string, title: string, titleIds: seq<int>, bodyIds: seq<int>)

  datatype Passage = Passage(passageId: string, docId: string, title: string, text: string)

  function ContentLimit(titleLength: nat): nat {
    var rest := CEILING - titleLength - RESERVED;
    if rest > CONTENT_FLOOR then rest else CONTENT_FLOOR
  }

  function OverlapOf(limit: nat): nat {
    if OVERLAP < limit / 4 then OVERLAP else limit / 4
  }

  /** Python's slice `tokens[offset : offset + limit]`. */
  function Cut(tokens: seq<int>, offset: nat, limit: nat): seq<int> {
    if offset >= |tokens| then []
    else if offset + limit >= |tokens| then tokens[offset..]
    else tokens[offset..offset + limit]
  }

  function TitleIds(doc: Document): seq<int> {
    Cut(doc.titleIds, 0, TITLE_LIMIT)
  }

  /** With the title cut to its limit the floor never applies, and the overlap is always the full one. */
  lemma FloorNeverApplies(doc: Document)
    ensures |TitleIds(doc)| == if |doc.titleIds| <= 80 then |doc.titleIds| else 80
    ensures ContentLimit(|TitleIds(doc)|) == 416 - |TitleIds(doc)|
    ensures OverlapOf(ContentLimit(|TitleIds(doc)|)) == 48 < ContentLimit(|TitleIds(doc)|)
  {
  }

  function Offset(i: nat, step: nat): nat { i * step }

  lemma NextOffset(i: nat, step: nat)
    requires step > 0
    ensures Offset(0, step) == 0 && Offset(i + 1, step) == Offset(i, step) + step
    ensures Offset(i, step) / step == i
  {
    assert Offset(i, step) == i * step + 0;
    DivideBack(i, step);
  }

  lemma {:induction false} DivideBack(i: nat, step: nat)
    requires step > 0
    ensures (i * step) / step == i
  {
    if i > 0 {
      DivideBack(i - 1, step);
      assert i * step == (i - 1) * step + step;
      assert ((i - 1) * step + step) / step == (i - 1) * step / step + 1;
    }
  }

  /** The windows start one step apart and stop at the first that reaches the end. */
  ghost predicate Tiles(windows: seq<seq<int>>, body: seq<int>, limit: nat, step: nat) {
    && windows != []
    && (forall i :: 0 <= i < |windows| ==> windows[i] == Cut(body, Offset(i, step), limit))
    && Offset(|windows| - 1, step) + limit >= |body|
    && (forall i :: 0 <= i < |windows| - 1 ==> Offset(i, step) + limit < |body|)
  }

  /** A full window and the next one: they share `overlap` tokens, and the next one adds some. */
  predicate Adjoin(window: seq<int>, next: seq<int>, limit: nat, overlap: nat)
    requires overlap <= limit
  {
    |window| == limit && |next| > overlap && window[limit - overlap..] == next[..overlap]
  }

  ghost predicate Share(windows: seq<seq<int>>, limit: nat, overlap: nat)
    requires overlap <= limit
  {
    forall i, j :: 0 <= i < |windows| && 0 <= j < |windows| && j == i + 1 ==>
      Adjoin(windows[i], windows[j], limit, overlap)
  }

  /** The first window, and what each later one adds after its overlap. */
  function Rejoin(windows: seq<seq<int>>, overlap: nat): seq<int> {
    if windows == [] then []
    else if |windows| == 1 then windows[0]
    else
      var last := windows[|windows| - 1];
      Rejoin(windows[..|windows| - 1], overlap) + if overlap <= |last| then last[overlap..] else []
  }

  lemma CutsAdjoin(body: seq<int>, offset: nat, limit: nat, overlap: nat)
    requires overlap < limit && offset + limit < |body|
    ensures Adjoin(Cut(body, offset, limit), Cut(body, offset + (limit - overlap), limit), limit, overlap)
  {
    var middle := body[offset + (limit - overlap)..offset + limit];
    assert Cut(body, offset, limit)[limit - overlap..] == middle;
    assert Cut(body, offset + (limit - overlap), limit)[..overlap] == middle;
  }

  lemma TilesShare(windows: seq<seq<int>>, body: seq<int>, limit: nat, overlap: nat)
    requires overlap < limit && Tiles(windows, body, limit, limit - overlap)
    ensures Share(windows, limit, overlap)
  {
    hide Offset, Cut, Adjoin;
    var step := limit - overlap;
    forall i, j | 0 <= i < |windows| && 0 <= j < |windows| && j == i + 1
      ensures Adjoin(windows[i], windows[j], limit, overlap)
    {
      NextOffset(i, step);
      CutsAdjoin(body, Offset(i, step), limit, overlap);
      assert windows[i] == Cut(body, Offset(i, step), limit);
      assert windows[j] == Cut(body, Offset(j, step), limit);
    }
  }

  /** The body up to `end`, and what the window that starts `overlap` earlier adds to it. */
  lemma CutExtends(body: seq<int>, end: nat, limit: nat, overlap: nat)
    requires overlap <= limit && overlap <= end < |body|
    ensures overlap <= |Cut(body, end - overlap, limit)|
    ensures Cut(body, 0, end) + Cut(body, end - overlap, limit)[overlap..] == Cut(body, 0, end - overlap + limit)
  {
    var more := Cut(body, end - overlap, limit);
    assert more[overlap..] == if end - overlap + limit >= |body| then body[end..] else body[end..end - overlap + limit];
  }

  lemma {:induction false} RejoinPrefix(windows: seq<seq<int>>, body: seq<int>, limit: nat, overlap: nat, k: nat)
    requires overlap < limit && Tiles(windows, body, limit, limit - overlap) && 0 < k <= |windows|
    ensures Rejoin(windows[..k], overlap) == Cut(body, 0, Offset(k - 1, limit - overlap) + limit)
    decreases k
  {
    hide Offset, Cut;
    var step := limit - overlap;
    var w := windows[k - 1];
    assert windows[..k][|windows[..k]| - 1] == w == Cut(body, Offset(k - 1, step), limit);
    NextOffset(0, step);
    if k > 1 {
      NextOffset(k - 2, step);
      RejoinPrefix(windows, body, limit, overlap, k - 1);
      assert windows[..k][..k - 1] == windows[..k - 1];
      CutExtends(body, Offset(k - 2, step) + limit, limit, overlap);
    }
  }

  /** Dropping each later window's overlap and joining gives the body back. */
  lemma TilesRejoin(windows: seq<seq<int>>, body: seq<int>, limit: nat, overlap: nat)
    requires overlap < limit && Tiles(windows, body, limit, limit - overlap)
    ensures Rejoin(windows, overlap) == body
  {
    assert windows[..|windows|] == windows;
    RejoinPrefix(windows, body, limit, overlap, |windows|);
    assert Cut(body, 0, Offset(|windows| - 1, limit - overlap) + limit) == body;
  }

  /**
   A document's windows: with its title, cut to 80 tokens, and 4 reserved ones each fits 420 tokens; all
   but the last are full and share their last 48 tokens with the next; rejoined they are the body.
   */
  ghost predicate Windowed(doc: Document, windows: seq<seq<int>>) {
    var title := if |doc.titleIds| <= 80 then |doc.titleIds| else 80;
    && (forall w :: w in windows ==> title + 4 + |w| <= 420)
    && windows != []
    && Share(windows, 416 - title, 48)
    && Rejoin(windows, 48) == doc.bodyIds
  }

  lemma TilesFit(windows: seq<seq<int>>, body: seq<int>, limit: nat, step: nat)
    requires Tiles(windows, body, limit, step)
    ensures forall w :: w in windows ==> |w| <= limit
  {
    hide Offset;
    forall w | w in windows ensures |w| <= limit {
      var i :| 0 <= i < |windows| && windows[i] == w;
      assert w == Cut(body, Offset(i, step), limit);
    }
  }

  lemma TilesWindowed(doc: Document, windows: seq<seq<int>>)
    requires var limit := ContentLimit(|TitleIds(doc)|);
             limit > OVERLAP && Tiles(windows, doc.bodyIds, limit, limit - OVERLAP)
    ensures Windowed(doc, windows)
  {
    hide Share, Rejoin, Cut, Offset;
    var limit := ContentLimit(|TitleIds(doc)|);
    FloorNeverApplies(doc);
    TilesFit(windows, doc.bodyIds, limit, limit - OVERLAP);
    TilesShare(windows, doc.bodyIds, limit, OVERLAP);
    TilesRejoin(windows, doc.bodyIds, limit, OVERLAP);
  }

  function Digit(d: nat): char
    requires d < 10
  {
    "0123456789"[d]
  }

  function Decimal(n: nat): string {
    if n < 10 then [Digit(n)] else Decimal(n / 10) + [Digit(n % 10)]
  }

  function PassageId(docId: string, index: nat): string {
    docId + "::" + Decimal(index)
  }

  function PassageOf(doc: Document, index: nat, content: string): Passage {
    Passage(
      PassageId(doc.id, index), doc.id, doc.title, if content != "" then doc.title + " / " + content else doc.title)
  }

  /** The passages of one document's windows, in order. */
  function Rendered(doc: Document, windows: seq<seq<int>>, decode: seq<int> -> string): seq<Passage> {
    seq(|windows|, i requires 0 <= i < |windows| => PassageOf(doc, i, decode(windows[i])))
  }

  /** The loop over one document's offsets. */
  method Split(doc: Document, decode: seq<int> -> string) returns (result: seq<Passage>, windows: seq<seq<int>>)
    ensures Windowed(doc, windows)
    ensures result == Rendered(doc, windows, decode)
    ensures |result| == |windows|
    ensures forall i :: 0 <= i < |windows| ==>
      var content := decode(windows[i]);
      result[i] == Passage(doc.id + "::" + Decimal(i), doc.id, doc.title,
                           if content == "" then doc.title else doc.title + " / " + content)
  {
    hide Offset, Tiles, Windowed, Rendered, Decimal;
    var limit := ContentLimit(|TitleIds(doc)|);
    var step := limit - OverlapOf(limit);
    var end := if |doc.bodyIds| > 1 then |doc.bodyIds| else 1;
    FloorNeverApplies(doc);
    result, windows := [], [];
    RenderedInPlain(doc, windows, decode);
    var offset := 0;
    NextOffset(0, step);
    var done := false;
    while offset < end && !done
      invariant done ==> Tiles(windows, doc.bodyIds, limit, step)
      invariant !done ==> Underway(windows, doc.bodyIds, limit, step) && offset == Offset(|windows|, step) < end
      invariant result == Rendered(doc, windows, decode)
      decreases end - offset, !done
    {
      var contentIds := Cut(doc.bodyIds, offset, limit);
      NextOffset(|windows|, step);
      result := result + [PassageOf(doc, offset / step, decode(contentIds))];
      OneMoreWindow(windows, doc.bodyIds, limit, step);
      OneMorePassage(doc, windows, contentIds, decode);
      windows := windows + [contentIds];
      if offset + limit >= |doc.bodyIds| {
        done := true;
      } else {
        offset := offset + step;
      }
    }
    TilesWindowed(doc, windows);
    RenderedInPlain(doc, windows, decode);
  }

  lemma OneMorePassage(doc: Document, windows: seq<seq<int>>, window: seq<int>, decode: seq<int> -> string)
    ensures Rendered(doc, windows + [window], decode) ==
            Rendered(doc, windows, decode) + [PassageOf(doc, |windows|, decode(window))]
  {
    hide PassageOf;
  }

  lemma RenderedInPlain(doc: Document, windows: seq<seq<int>>, decode: seq<int> -> string)
    ensures |Rendered(doc, windows, decode)| == |windows|
    ensures forall i :: 0 <= i < |windows| ==>
      var content := decode(windows[i]);
      Rendered(doc, windows, decode)[i] ==
        Passage(doc.id + "::" + Decimal(i), doc.id, doc.title,
                if content == "" then doc.title else doc.title + " / " + content)
  {
    hide Decimal;
  }

  /** The windows so far, none of which has reached the end. */
  ghost predicate Underway(windows: seq<seq<int>>, body: seq<int>, limit: nat, step: nat) {
    && (forall i :: 0 <= i < |windows| ==> windows[i] == Cut(body, Offset(i, step), limit))
    && (forall i :: 0 <= i < |windows| ==> Offset(i, step) + limit < |body|)
  }

  lemma OneMoreWindow(windows: seq<seq<int>>, body: seq<int>, limit: nat, step: nat)
    requires Underway(windows, body, limit, step)
    ensures var offset := Offset(|windows|, step);
            var more := windows + [Cut(body, offset, limit)];
            if offset + limit >= |body| then Tiles(more, body, limit, step) else Underway(more, body, limit, step)
  {
    hide Cut, Offset;
  }

  /** All documents' passages one after another. */
  method SplitAll(documents: seq<Document>, decode: seq<int> -> string)
    returns (result: seq<Passage>, windows: seq<seq<seq<int>>>)
    ensures |windows| == |documents| && forall i :: 0 <= i < |documents| ==> Windowed(documents[i], windows[i])
    ensures result == AllRendered(documents, windows, decode)
  {
    hide Windowed, Rendered;
    result, windows := [], [];
    for i := 0 to |documents|
      invariant |windows| == i && forall j :: 0 <= j < i ==> Windowed(documents[j], windows[j])
      invariant result == AllRendered(documents[..i], windows, decode)
    {
      var more, ws := Split(documents[i], decode);
      assert documents[..i + 1][..i] == documents[..i] && (windows + [ws])[..i] == windows;
      result, windows := result + more, windows + [ws];
    }
    assert documents[..|documents|] == documents;
  }

  function AllRendered(documents: seq<Document>, windows: seq<seq<seq<int>>>, decode: seq<int> -> string): seq<Passage>
    requires |documents| == |windows|
  {
    if documents == [] then []
    else
      var n := |documents| - 1;
      AllRendered(documents[..n], windows[..n], decode) + Rendered(documents[n], windows[n], decode)
  }

  /** The number a string of digits stands for. */
  function Value(s: string): int {
    if s == "" then 0 else 10 * Value(s[..|s| - 1]) + (s[|s| - 1] as int - '0' as int)
  }

  /** The passage number is written in decimal digits without leading zeros. */
  lemma {:induction false} DecimalInPlain(n: nat)
    ensures Value(Decimal(n)) == n && Decimal(n) != ""
    ensures forall i :: 0 <= i < |Decimal(n)| ==> '0' <= Decimal(n)[i] <= '9'
    ensures n > 0 ==> Decimal(n)[0] != '0'
  {
    DigitInPlain(n % 10);
    if n >= 10 { DecimalInPlain(n / 10); }
  }

  lemma DigitInPlain(d: nat)
    requires d < 10
    ensures Digit(d) as int == '0' as int + d
  {
  }

  lemma {:induction false} DecimalDigits(n: nat)
    ensures Decimal(n) != "" && forall i :: 0 <= i < |Decimal(n)| ==> Decimal(n)[i] != ':'
  {
    if n >= 10 { DecimalDigits(n / 10); }
  }

  lemma {:induction false} DecimalInjective(m: nat, n: nat)
    requires Decimal(m) == Decimal(n)
    ensures m == n
  {
    var a, b := Decimal(m), Decimal(n);
    if m >= 10 { DecimalDigits(m / 10); }
    if n >= 10 { DecimalDigits(n / 10); }
    assert a[|a| - 1] == Digit(m % 10) && b[|b| - 1] == Digit(n % 10);
    DigitInjective(m % 10, n % 10);
    if m >= 10 {
      assert n >= 10;
      assert a[..|a| - 1] == Decimal(m / 10) && b[..|b| - 1] == Decimal(n / 10);
      DecimalInjective(m / 10, n / 10);
    }
  }

  lemma DigitInjective(d: nat, e: nat)
    requires d < 10 && e < 10 && Digit(d) == Digit(e)
    ensures d == e
  {
    var s := "0123456789";
    assert forall i, j :: 0 <= i < j < 10 ==> s[i] != s[j];
  }

  /** The colon before the number is the last one. */
  lemma LastColon(docId: string, n: nat)
    ensures var s := PassageId(docId, n);
            |s| == |docId| + 2 + |Decimal(n)| && s[|docId| + 1] == ':'
            && (forall i :: |docId| + 1 < i < |s| ==> s[i] != ':')
            && s[..|docId|] == docId && s[|docId| + 2..] == Decimal(n)
  {
    DecimalDigits(n);
    var s := PassageId(docId, n);
    assert forall i :: |docId| + 1 < i < |s| ==> s[i] == Decimal(n)[i - |docId| - 2];
  }

  /** No two passage ids coincide, whatever colons the document ids hold. */
  lemma PassageIdInjective(a: string, m: nat, b: string, n: nat)
    requires PassageId(a, m) == PassageId(b, n)
    ensures a == b && m == n
  {
    hide PassageId, Decimal;
    LastColon(a, m);
    LastColon(b, n);
    DecimalInjective(m, n);
  }

  /** Where an entry of the whole list comes from. */
  lemma {:induction false} Origin(
      documents: seq<Document>, windows: seq<seq<seq<int>>>, decode: seq<int> -> string, k: nat)
    returns (d: nat, w: nat)
    requires |documents| == |windows| && k < |AllRendered(documents, windows, decode)|
    ensures d < |documents| && w < |windows[d]|
    ensures AllRendered(documents, windows, decode)[k] == PassageOf(documents[d], w, decode(windows[d][w]))
    ensures k == |AllRendered(documents[..d], windows[..d], decode)| + w
  {
    var n := |documents| - 1;
    var front := AllRendered(documents[..n], windows[..n], decode);
    if k < |front| {
      d, w := Origin(documents[..n], windows[..n], decode, k);
      assert documents[..n][..d] == documents[..d] && windows[..n][..d] == windows[..d];
    } else {
      d, w := n, k - |front|;
    }
  }

  /** And every window of every document is there, in order. */
  lemma {:induction false} EveryWindowIsThere(
      documents: seq<Document>, windows: seq<seq<seq<int>>>, decode: seq<int> -> string, d: nat, w: nat)
    requires |documents| == |windows| && d < |documents| && w < |windows[d]|
    ensures var all := AllRendered(documents, windows, decode);
            var k := |AllRendered(documents[..d], windows[..d], decode)| + w;
            k < |all| && all[k] == PassageOf(documents[d], w, decode(windows[d][w]))
  {
    hide PassageOf;
    var n := |documents| - 1;
    if d == n {
      assert Rendered(documents[n], windows[n], decode)[w] == PassageOf(documents[d], w, decode(windows[d][w]));
    } else {
      hide Rendered;
      assert documents[..n][..d] == documents[..d] && windows[..n][..d] == windows[..d];
      EveryWindowIsThere(documents[..n], windows[..n], decode, d, w);
    }
  }

  /** Documents with distinct ids give passages with distinct ids. */
  lemma PassageIdsDistinct(documents: seq<Document>, windows: seq<seq<seq<int>>>, decode: seq<int> -> string)
    requires |documents| == |windows|
    requires forall i, j :: 0 <= i < j < |documents| ==> documents[i].id != documents[j].id
    ensures var all := AllRendered(documents, windows, decode);
            forall k, l :: 0 <= k < l < |all| ==> all[k].passageId != all[l].passageId
  {
    var all := AllRendered(documents, windows, decode);
    forall k, l | 0 <= k < l < |all| ensures all[k].passageId != all[l].passageId {
      var d, w := Origin(documents, windows, decode, k);
      var e, v := Origin(documents, windows, decode, l);
      assert documents[d].id == documents[e].id ==> d == e;
      if all[k].passageId == all[l].passageId {
        PassageIdInjective(documents[d].id, w, documents[e].id, v);
      }
    }
  }
}
