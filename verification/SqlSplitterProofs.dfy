/**
  What the splitter guarantees: the raw segments rejoin to the text, they are the only way to cut it
  at its normal-mode semicolons, and splitting what was split gives it back.
 */
module SqlSplitterProofs {
  import opened SqlSplitter

  /** A text after which no token can straddle: nothing, white space or a semicolon. */
  predicate Breaks(k: Chars, y: string) {
    y == "" || k.space(y[0]) || y[0] == ';'
  }

  // ---------- Reading a prefix ----------

  lemma {:induction false} TagEndLocal(k: Chars, x: string, y: string, j: nat)
    requires Valid(k) && j <= |x| && Breaks(k, y)
    ensures TagEnd(k, x + y, j) == TagEnd(k, x, j)
    decreases |x| - j
  {
    if j < |x| {
      if TagChar(k, x[j]) { TagEndLocal(k, x, y, j + 1); }
    } else if y != "" {
      assert (x + y)[j] == y[0];
      assert y[0] != '_' && !k.alnum(y[0]);
    }
  }

  lemma TagLocal(k: Chars, x: string, y: string, tag: string)
    requires Valid(k) && IsTag(k, tag) && Breaks(k, y)
    ensures tag <= x + y <==> tag <= x
  {
    if |x| < |tag| && y != "" {
      assert (x + y)[|x|] == y[0];
      assert tag[|x|] != y[0];
    }
    if y == "" { assert x + y == x; }
  }

  /** A token never looks past a break. */
  lemma LexLocal(k: Chars, x: string, y: string, m: Mode)
    requires Valid(k) && ModeOk(k, m) && x != "" && Breaks(k, y)
    ensures Lex(k, x + y, m) == Lex(k, x, m)
  {
    assert (x + y)[0] == x[0];
    assert 1 < |x| ==> (x + y)[1] == x[1];
    assert |x| == 1 && y != "" ==> (x + y)[1] == y[0];
    if m.Dollar? { TagLocal(k, x, y, m.tag); }
    if m.Normal? {
      TagEndLocal(k, x, y, 1);
      var e := TagEnd(k, x, 1);
      if e < |x| {
        assert (x + y)[e] == x[e] && (x + y)[..e + 1] == x[..e + 1];
      } else if y != "" {
        assert (x + y)[e] == y[0] != '$';
      }
    }
  }

  /** Glue two lists of segments at the seam. */
  function Glue(a: seq<string>, b: seq<string>): (r: seq<string>)
    requires a != [] && b != []
    ensures |r| == |a| + |b| - 1
  {
    a[..|a| - 1] + Prepend(a[|a| - 1], b)
  }

  lemma GluePrepend(head: string, a: seq<string>, b: seq<string>)
    requires a != [] && b != []
    ensures Prepend(head, Glue(a, b)) == Glue(Prepend(head, a), b)
  {
    if |a| == 1 {
      assert head + (a[0] + b[0]) == (head + a[0]) + b[0];
    }
  }

  /** One step of reading `x`, alone or with more text after a break. */
  lemma StepBoth(k: Chars, x: string, y: string, m: Mode) returns (len: nat, next: Mode)
    requires Valid(k) && ModeOk(k, m) && x != "" && Breaks(k, y)
    ensures 1 <= len <= |x| && ModeOk(k, next)
    ensures Run(k, x, m) == Run(k, x[len..], next) && Run(k, x + y, m) == Run(k, x[len..] + y, next)
    ensures if m.Normal? && x[0] == ';' then
              && len == 1 && next == Normal && !NoCut(k, x, m)
              && Segments(k, x, m) == [""] + Segments(k, x[len..], next)
              && Segments(k, x + y, m) == [""] + Segments(k, x[len..] + y, next)
            else
              && NoCut(k, x, m) == NoCut(k, x[len..], next)
              && Segments(k, x, m) == Prepend(x[..len], Segments(k, x[len..], next))
              && Segments(k, x + y, m) == Prepend(x[..len], Segments(k, x[len..] + y, next))
  {
    var t := Lex(k, x, m);
    len, next := t.len, t.next;
    LexLocal(k, x, y, m);
    assert (x + y)[len..] == x[len..] + y && (x + y)[..len] == x[..len];
  }

  lemma GlueAfterCut(a: seq<string>, b: seq<string>)
    requires a != [] && b != []
    ensures Glue([""] + a, b) == [""] + Glue(a, b)
  {
  }

  /** Reading a text up to a break and then the rest is reading the whole. */
  lemma {:induction false} SegmentsConcat(k: Chars, x: string, y: string, m: Mode)
    requires Valid(k) && ModeOk(k, m) && Breaks(k, y)
    ensures Run(k, x + y, m) == Run(k, y, Run(k, x, m))
    ensures Segments(k, x + y, m) == Glue(Segments(k, x, m), Segments(k, y, Run(k, x, m)))
    decreases |x|
  {
    if x == "" {
      assert x + y == y;
      PrependNothing(Segments(k, y, m));
    } else {
      var len, next := StepBoth(k, x, y, m);
      SegmentsConcat(k, x[len..], y, next);
      var a, b := Segments(k, x[len..], next), Segments(k, y, Run(k, x, m));
      if m.Normal? && x[0] == ';' {
        GlueAfterCut(a, b);
      } else {
        GluePrepend(x[..len], a, b);
      }
    }
  }

  // ---------- Conservation and uniqueness ----------

  lemma JoinPrepend(head: string, parts: seq<string>, sep: string)
    requires parts != []
    ensures Join(Prepend(head, parts), sep) == head + Join(parts, sep)
  {
    if |parts| > 1 {
      assert Prepend(head, parts)[1..] == parts[1..];
      assert (head + parts[0]) + sep + Join(parts[1..], sep) == head + (parts[0] + sep + Join(parts[1..], sep));
    }
  }

  lemma StepAlone(k: Chars, x: string, m: Mode) returns (len: nat, next: Mode)
    requires ModeOk(k, m) && x != "" && !(m.Normal? && x[0] == ';')
    ensures 1 <= len <= |x| && ModeOk(k, next)
    ensures Run(k, x, m) == Run(k, x[len..], next) && NoCut(k, x, m) == NoCut(k, x[len..], next)
    ensures Segments(k, x, m) == Prepend(x[..len], Segments(k, x[len..], next))
  {
    var t := Lex(k, x, m);
    len, next := t.len, t.next;
  }

  /** The raw segments rejoined with ";" are the text: nothing is lost, added or reordered. */
  lemma {:induction false} SegmentsConserve(k: Chars, s: string, m: Mode)
    requires ModeOk(k, m)
    ensures Join(Segments(k, s, m), ";") == s
    decreases |s|
  {
    if s != "" {
      if m.Normal? && s[0] == ';' {
        SegmentsConserve(k, s[1..], Normal);
        var r := [""] + Segments(k, s[1..], Normal);
        assert r[1..] == Segments(k, s[1..], Normal);
        assert "" + ";" + s[1..] == s;
      } else {
        var len, next := StepAlone(k, s, m);
        SegmentsConserve(k, s[len..], next);
        JoinPrepend(s[..len], Segments(k, s[len..], next), ";");
        assert s[..len] + s[len..] == s;
      }
    }
  }

  /** Uncut means one segment, the text itself. */
  lemma {:induction false} NoCutSegment(k: Chars, s: string, m: Mode)
    requires ModeOk(k, m)
    ensures NoCut(k, s, m) <==> Segments(k, s, m) == [s]
    decreases |s|
  {
    if s != "" && !(m.Normal? && s[0] == ';') {
      var len, next := StepAlone(k, s, m);
      NoCutSegment(k, s[len..], next);
      SegmentsConserve(k, s[len..], next);
      PrependWhole(s[..len], s[len..], Segments(k, s[len..], next));
      assert s[..len] + s[len..] == s;
    }
  }

  lemma PrependWhole(a: string, b: string, tail: seq<string>)
    requires tail != [] && Join(tail, ";") == b
    ensures Prepend(a, tail) == [a + b] <==> tail == [b]
  {
    assert |tail| == 1 ==> tail == [b];
    assert |Prepend(a, tail)| == |tail|;
  }

  /**
    A cutting of `s` read from mode `m`: the pieces rejoin to `s`, none holds a semicolon met in the
    normal mode, and every piece before a cut ends in the normal mode, outside quotes, comments and bodies.
   */
  ghost predicate IsCutting(k: Chars, s: string, m: Mode, pieces: seq<string>)
    requires ModeOk(k, m)
  {
    && pieces != [] && Join(pieces, ";") == s
    && NoCut(k, pieces[0], m) && (1 < |pieces| ==> Run(k, pieces[0], m) == Normal)
    && (forall i :: 0 < i < |pieces| ==> NoCut(k, pieces[i], Normal))
    && (forall i :: 0 < i < |pieces| - 1 ==> Run(k, pieces[i], Normal) == Normal)
  }

  /** An uncut text that ends in the normal mode is one segment when a semicolon follows. */
  lemma SegmentsAtCut(k: Chars, x: string, rest: string, m: Mode)
    requires Valid(k) && ModeOk(k, m) && NoCut(k, x, m) && Run(k, x, m) == Normal
    ensures Segments(k, x + ";" + rest, m) == [x] + Segments(k, rest, Normal)
  {
    var y, tail := ";" + rest, Segments(k, rest, Normal);
    assert x + ";" + rest == x + y;
    SegmentsConcat(k, x, y, m);
    NoCutSegment(k, x, m);
    assert y[0] == ';' && y[1..] == rest;
    assert Segments(k, y, Normal) == [""] + tail;
    assert x + "" == x;
    assert Glue([x], [""] + tail) == [x] + tail;
  }

  lemma {:induction false} CuttingIsSegments(k: Chars, s: string, m: Mode, pieces: seq<string>)
    requires Valid(k) && ModeOk(k, m) && IsCutting(k, s, m, pieces)
    ensures pieces == Segments(k, s, m)
    decreases |pieces|
  {
    if |pieces| > 1 {
      var rest := pieces[1..];
      CuttingIsSegments(k, Join(rest, ";"), Normal, rest);
      SegmentsAtCut(k, pieces[0], Join(rest, ";"), m);
      assert pieces == [pieces[0]] + rest;
    } else {
      NoCutSegment(k, pieces[0], m);
      assert pieces == [s];
    }
  }

  /** The text before the first cut, and what follows it. */
  lemma FirstSegment(k: Chars, s: string, m: Mode) returns (y: string)
    requires ModeOk(k, m)
    ensures var r := Segments(k, s, m); s == r[0] + y && y == if |r| == 1 then "" else ";" + Join(r[1..], ";")
  {
    var r := Segments(k, s, m);
    SegmentsConserve(k, s, m);
    y := if |r| == 1 then "" else ";" + Join(r[1..], ";");
  }

  lemma FirstNonempty(k: Chars, s: string, m: Mode)
    requires ModeOk(k, m) && s != "" && !(m.Normal? && s[0] == ';')
    ensures var first := Segments(k, s, m)[0]; first != "" && first[0] == s[0]
  {
    var _, _ := StepAlone(k, s, m);
  }

  lemma FirstStep(k: Chars, s: string, m: Mode) returns (len: nat, next: Mode)
    requires Valid(k) && ModeOk(k, m) && s != "" && !(m.Normal? && s[0] == ';')
    ensures 1 <= len <= |s| && ModeOk(k, next)
    ensures var r, whole := Segments(k, s[len..], next), Segments(k, s, m);
            && |whole| == |r| && NoCut(k, whole[0], m) == NoCut(k, r[0], next) && Run(k, whole[0], m) == Run(k, r[0], next)
  {
    FirstNonempty(k, s, m);
    var y := FirstSegment(k, s, m);
    var first := Segments(k, s, m)[0];
    assert first + y == s;
    len, next := StepBoth(k, first, y, m);
    assert s[len..] == first[len..] + y;
    var r := Segments(k, s[len..], next);
    assert first == first[..len] + r[0];
    assert first[len..] == r[0];
  }

  lemma {:induction false} FirstIsUncut(k: Chars, s: string, m: Mode)
    requires Valid(k) && ModeOk(k, m)
    ensures var r := Segments(k, s, m); NoCut(k, r[0], m) && (|r| > 1 ==> Run(k, r[0], m) == Normal)
    decreases |s|
  {
    if s != "" && !(m.Normal? && s[0] == ';') {
      var len, next := FirstStep(k, s, m);
      FirstIsUncut(k, s[len..], next);
    }
  }

  lemma {:induction false} SegmentsIsCutting(k: Chars, s: string, m: Mode)
    requires Valid(k) && ModeOk(k, m)
    ensures IsCutting(k, s, m, Segments(k, s, m))
    decreases |s|
  {
    var r := Segments(k, s, m);
    SegmentsConserve(k, s, m);
    FirstIsUncut(k, s, m);
    if |r| > 1 {
      var rest := Join(r[1..], ";");
      var y := FirstSegment(k, s, m);
      assert s == r[0] + ";" + rest;
      SegmentsAtCut(k, r[0], rest, m);
      SegmentsIsCutting(k, rest, Normal);
      assert Segments(k, rest, Normal) == r[1..];
      forall i | 0 < i < |r| ensures NoCut(k, r[i], Normal) && (i < |r| - 1 ==> Run(k, r[i], Normal) == Normal) {
        assert r[i] == r[1..][i - 1];
        NoCutAt(k, rest, r[1..], i - 1);
      }
    }
  }

  lemma NoCutAt(k: Chars, s: string, pieces: seq<string>, i: nat)
    requires IsCutting(k, s, Normal, pieces) && i < |pieces|
    ensures NoCut(k, pieces[i], Normal) && (i < |pieces| - 1 ==> Run(k, pieces[i], Normal) == Normal)
  {
  }

  /** The splitter's segments are the one and only cutting of the text. */
  lemma SegmentsUnique(k: Chars, s: string, pieces: seq<string>)
    requires Valid(k)
    ensures IsCutting(k, s, Normal, pieces) <==> pieces == Segments(k, s, Normal)
  {
    SegmentsIsCutting(k, s, Normal);
    if IsCutting(k, s, Normal, pieces) { CuttingIsSegments(k, s, Normal, pieces); }
  }

  // ---------- Stripping ----------

  /** Not blank, and no white space at either end. */
  predicate Trimmed(k: Chars, s: string) {
    s != "" && !k.space(s[0]) && !k.space(s[|s| - 1])
  }

  lemma {:induction false} LeftStripParts(k: Chars, s: string) returns (w: string)
    ensures AllSpace(k, w) && s == w + LeftStrip(k, s) && (LeftStrip(k, s) == "" || !k.space(LeftStrip(k, s)[0]))
    decreases |s|
  {
    w := "";
    if s != "" && k.space(s[0]) {
      var v := LeftStripParts(k, s[1..]);
      w := [s[0]] + v;
      assert s == [s[0]] + s[1..];
    }
  }

  lemma {:induction false} RightStripParts(k: Chars, s: string) returns (w: string)
    ensures AllSpace(k, w) && s == RightStrip(k, s) + w && (RightStrip(k, s) == "" || !k.space(RightStrip(k, s)[|RightStrip(k, s)| - 1]))
    decreases |s|
  {
    w := "";
    if s != "" && k.space(s[|s| - 1]) {
      var v := RightStripParts(k, s[..|s| - 1]);
      w := v + [s[|s| - 1]];
      assert s == s[..|s| - 1] + [s[|s| - 1]];
    }
  }

  lemma StripParts(k: Chars, s: string) returns (front: string, back: string)
    ensures AllSpace(k, front) && AllSpace(k, back) && s == front + Strip(k, s) + back
    ensures Strip(k, s) == "" || Trimmed(k, Strip(k, s))
  {
    front := LeftStripParts(k, s);
    back := RightStripParts(k, LeftStrip(k, s));
    if Strip(k, s) != "" { assert LeftStrip(k, s)[0] == Strip(k, s)[0]; }
  }

  lemma {:induction false} StripTail(k: Chars, s: string, w: string)
    requires Trimmed(k, s) && AllSpace(k, w)
    ensures Strip(k, s + w) == s
    decreases |w|
  {
    assert (s + w)[0] == s[0];
    if w == "" {
      assert s + w == s;
    } else {
      StripTail(k, s, w[..|w| - 1]);
      assert (s + w)[..|s + w| - 1] == s + w[..|w| - 1];
      assert (s + w[..|w| - 1])[0] == s[0];
    }
  }

  lemma PrependTwice(a: string, b: string, segments: seq<string>)
    requires segments != []
    ensures Prepend(a, Prepend(b, segments)) == Prepend(a + b, segments)
  {
    assert a + (b + segments[0]) == (a + b) + segments[0];
  }

  lemma SpaceStep(k: Chars, w: string, s: string)
    requires Valid(k) && w != "" && k.space(w[0])
    ensures Segments(k, w + s, Normal) == Prepend(w[..1], Segments(k, w[1..] + s, Normal))
    ensures Run(k, w + s, Normal) == Run(k, w[1..] + s, Normal)
  {
    var v := w + s;
    assert v[1..] == w[1..] + s && v[..1] == w[..1];
    assert Lex(k, v, Normal) == Token(1, Normal);
  }

  /** White space in the normal mode is read one character at a time. */
  lemma {:induction false} LeadingSpace(k: Chars, w: string, s: string)
    requires Valid(k) && AllSpace(k, w)
    ensures Segments(k, w + s, Normal) == Prepend(w, Segments(k, s, Normal))
    ensures Run(k, w + s, Normal) == Run(k, s, Normal)
    decreases |w|
  {
    if w == "" {
      assert w + s == s;
      PrependNothing(Segments(k, s, Normal));
    } else {
      LeadingSpace(k, w[1..], s);
      SpaceStep(k, w, s);
      PrependTwice(w[..1], w[1..], Segments(k, s, Normal));
      assert w[..1] + w[1..] == w;
    }
  }

  lemma {:induction false} SpaceKeepsMode(k: Chars, w: string, m: Mode)
    requires Valid(k) && ModeOk(k, m) && AllSpace(k, w)
    ensures Run(k, w, m) == m || (m == LineComment && Run(k, w, m) == Normal)
    decreases |w|
  {
    if w != "" {
      assert k.space(w[0]);
      SpaceKeepsMode(k, w[1..], Lex(k, w, m).next);
    }
  }

  /** The mode a returned statement ends in, and whether it stands on its own. */
  predicate Standalone(k: Chars, s: string) {
    Trimmed(k, s) && NoCut(k, s, Normal)
  }

  predicate EndsOpen(k: Chars, s: string) {
    Run(k, s, Normal) != Normal && Run(k, s, Normal) != LineComment
  }

  /** A stripped segment is uncut, and if its segment ended in the normal mode then it ends there or in a line comment. */
  lemma StrippedSegment(k: Chars, x: string)
    requires Valid(k) && NoCut(k, x, Normal) && Strip(k, x) != ""
    ensures Standalone(k, Strip(k, x))
    ensures Run(k, x, Normal) == Normal ==> !EndsOpen(k, Strip(k, x))
  {
    var front, back := StripParts(k, x);
    var c := Strip(k, x);
    assert x == front + (c + back);
    LeadingSpace(k, front, c + back);
    NoCutSegment(k, x, Normal);
    WholeFront(k, c, back, front);
    ModeBeforeSpace(k, c, back);
  }

  /** If a text with something before and after it is one segment, then so is the text. */
  lemma WholeFront(k: Chars, c: string, back: string, front: string)
    requires Valid(k) && AllSpace(k, back) && |Prepend(front, Segments(k, c + back, Normal))| == 1
    ensures NoCut(k, c, Normal)
  {
    SpaceBreaks(k, back);
    SegmentsConcat(k, c, back, Normal);
    assert |Segments(k, c, Normal)| == 1;
    SegmentsConserve(k, c, Normal);
    NoCutSegment(k, c, Normal);
  }

  lemma SpaceBreaks(k: Chars, w: string)
    requires AllSpace(k, w)
    ensures Breaks(k, w)
  {
  }

  lemma ModeBeforeSpace(k: Chars, c: string, back: string)
    requires Valid(k) && AllSpace(k, back)
    ensures Run(k, c + back, Normal) == Normal ==> !EndsOpen(k, c)
  {
    SpaceBreaks(k, back);
    SegmentsConcat(k, c, back, Normal);
    SpaceKeepsMode(k, back, Run(k, c, Normal));
  }

  // ---------- What Split returns ----------

  /** Statements the splitter can return: each stands alone, and only the last may end inside a quote, comment or body. */
  ghost predicate Statements(k: Chars, ss: seq<string>) {
    && (forall i :: 0 <= i < |ss| ==> Standalone(k, ss[i]))
    && (forall i :: 0 <= i < |ss| - 1 ==> !EndsOpen(k, ss[i]))
  }

  lemma {:induction false} KeepStatements(k: Chars, segments: seq<string>)
    requires Valid(k)
    requires forall i :: 0 <= i < |segments| ==> NoCut(k, segments[i], Normal)
    requires forall i :: 0 <= i < |segments| - 1 ==> Run(k, segments[i], Normal) == Normal
    ensures Statements(k, Keep(k, segments))
  {
    if segments != [] {
      KeepStatements(k, segments[1..]);
      if Strip(k, segments[0]) != "" {
        StrippedSegment(k, segments[0]);
        if |segments| == 1 { assert Keep(k, segments[1..]) == []; }
      }
    }
  }

  lemma SplitStatements(k: Chars, s: string)
    requires Valid(k)
    ensures Statements(k, Split(k, s))
  {
    SegmentsIsCutting(k, s, Normal);
    KeepStatements(k, Segments(k, s, Normal));
  }

  lemma KeepOne(k: Chars, x: string, rest: seq<string>)
    requires Strip(k, x) != ""
    ensures Keep(k, [x] + rest) == [Strip(k, x)] + Keep(k, rest)
  {
    assert ([x] + rest)[1..] == rest;
  }

  /** Splitting a returned statement gives back that statement alone. */
  lemma SplitStandalone(k: Chars, s: string)
    requires Standalone(k, s)
    ensures Split(k, s) == [s]
  {
    NoCutSegment(k, s, Normal);
    assert s + "" == s;
    StripTail(k, s, "");
    KeepOne(k, s, []);
    assert [s] + [] == [s];
  }

  /** A new line closes a statement that does not end open. */
  lemma LineCloses(k: Chars, s: string)
    requires Valid(k) && Standalone(k, s) && !EndsOpen(k, s)
    ensures NoCut(k, s + "\n", Normal) && Run(k, s + "\n", Normal) == Normal
  {
    var m := Run(k, s, Normal);
    SegmentsConcat(k, s, "\n", Normal);
    NoCutSegment(k, s, Normal);
    assert Lex(k, "\n", m) == Token(1, Normal);
    assert "\n"[1..] == "" && "\n"[..1] + "" == "\n";
    assert Segments(k, "", Normal) == [""];
    assert Segments(k, "\n", m) == Prepend("\n"[..1], [""]) == ["\n"];
    NoCutSegment(k, s + "\n", Normal);
  }

  /** After a statement that does not end open, a new line and a semicolon cut. */
  lemma CutAfterLine(k: Chars, s: string, rest: string)
    requires Valid(k) && Standalone(k, s) && !EndsOpen(k, s)
    ensures Split(k, s + "\n;" + rest) == [s] + Split(k, rest)
  {
    LineCloses(k, s);
    SegmentsAtCut(k, s + "\n", rest, Normal);
    assert s + "\n;" + rest == s + "\n" + ";" + rest;
    StripTail(k, s, "\n");
    KeepOne(k, s + "\n", Segments(k, rest, Normal));
  }

  lemma {:induction false} JoinedStatements(k: Chars, ss: seq<string>)
    requires Valid(k) && Statements(k, ss)
    ensures Split(k, Join(ss, "\n;")) == ss
  {
    if ss == [] {
      assert Segments(k, "", Normal) == [""] && [""][1..] == [];
      assert Keep(k, [""]) == Keep(k, []);
    } else if |ss| == 1 {
      SplitStandalone(k, ss[0]);
    } else {
      JoinedStatements(k, ss[1..]);
      CutAfterLine(k, ss[0], Join(ss[1..], "\n;"));
    }
  }

  /** The round trip, for every text: rejoin the statements and split again. */
  lemma RoundTrip(k: Chars, s: string)
    requires Valid(k)
    ensures Split(k, Join(Split(k, s), "\n;")) == Split(k, s)
    ensures forall i :: 0 <= i < |Split(k, s)| ==> Split(k, Split(k, s)[i]) == [Split(k, s)[i]]
  {
    SplitStatements(k, s);
    JoinedStatements(k, Split(k, s));
    forall i | 0 <= i < |Split(k, s)| ensures Split(k, Split(k, s)[i]) == [Split(k, s)[i]] {
      SplitStandalone(k, Split(k, s)[i]);
    }
  }

  // ---------- A plain semicolon join ----------

  /** No statement but the last ends in a line comment. */
  predicate NoCommentBeforeLast(k: Chars, ss: seq<string>) {
    forall i :: 0 <= i < |ss| - 1 ==> Run(k, ss[i], Normal) == Normal
  }

  lemma CutAfterStatement(k: Chars, s: string, rest: string)
    requires Valid(k) && Standalone(k, s) && Run(k, s, Normal) == Normal
    ensures Split(k, s + ";" + rest) == [s] + Split(k, rest)
  {
    SegmentsAtCut(k, s, rest, Normal);
    assert s + "" == s;
    StripTail(k, s, "");
    KeepOne(k, s, Segments(k, rest, Normal));
  }

  /** A semicolon put after a line comment belongs to the comment: the first statement grows. */
  lemma CommentSwallows(k: Chars, s: string, rest: string)
    requires Valid(k) && Standalone(k, s) && Run(k, s, Normal) == LineComment
    ensures Split(k, s + ";" + rest) != [] && Split(k, s + ";" + rest)[0] != s
  {
    var y := ";" + rest;
    assert s + ";" + rest == s + y;
    SegmentsConcat(k, s, y, Normal);
    NoCutSegment(k, s, Normal);
    var len, next := StepAlone(k, y, LineComment);
    var first := Segments(k, y, LineComment)[0];
    assert first[0] == ';';
    var whole := s + first;
    assert Segments(k, s + y, Normal)[0] == whole;
    var front, back := StripParts(k, whole);
    assert whole[|s|] == ';' && whole[0] == s[0];
    assert back != "" ==> back[0] == whole[|Strip(k, whole)|] && k.space(back[0]);
    KeepOne(k, whole, Segments(k, s + y, Normal)[1..]);
    assert [whole] + Segments(k, s + y, Normal)[1..] == Segments(k, s + y, Normal);
  }

  lemma CommentsOfRest(k: Chars, ss: seq<string>)
    requires 1 < |ss|
    ensures NoCommentBeforeLast(k, ss) <==> Run(k, ss[0], Normal) == Normal && NoCommentBeforeLast(k, ss[1..])
    ensures forall r: seq<string> :: [ss[0]] + r == ss <==> r == ss[1..]
  {
    if NoCommentBeforeLast(k, ss[1..]) && Run(k, ss[0], Normal) == Normal {
      forall i | 0 < i < |ss| - 1 ensures Run(k, ss[i], Normal) == Normal { assert ss[i] == ss[1..][i - 1]; }
    }
    forall r: seq<string> ensures [ss[0]] + r == ss <==> r == ss[1..] {
      assert ([ss[0]] + r)[1..] == r;
      assert [ss[0]] + ss[1..] == ss;
    }
  }

  lemma {:induction false} PlainJoinIff(k: Chars, ss: seq<string>)
    requires Valid(k) && Statements(k, ss)
    ensures Split(k, Join(ss, ";")) == ss <==> NoCommentBeforeLast(k, ss)
  {
    if ss == [] {
      JoinedStatements(k, ss);
    } else if |ss| == 1 {
      SplitStandalone(k, ss[0]);
    } else {
      PlainJoinIff(k, ss[1..]);
      CommentsOfRest(k, ss);
      if Run(k, ss[0], Normal) == Normal {
        CutAfterStatement(k, ss[0], Join(ss[1..], ";"));
      } else {
        CommentSwallows(k, ss[0], Join(ss[1..], ";"));
      }
    }
  }

  /** Rejoining with ";" alone gives the statements back exactly when none but the last ends in a line comment. */
  lemma PlainRoundTripIff(k: Chars, s: string)
    requires Valid(k)
    ensures Split(k, Join(Split(k, s), ";")) == Split(k, s) <==> NoCommentBeforeLast(k, Split(k, s))
  {
    SplitStatements(k, s);
    PlainJoinIff(k, Split(k, s));
  }

  /** A text that the plain join loses: its first statement is a line comment, which swallows the semicolon. */
  lemma PlainJoinLoses(k: Chars)
    requires Valid(k)
    ensures Split(k, "--\n;*") == ["--", "*"] && Split(k, Join(["--", "*"], ";")) != ["--", "*"]
  {
    var ss := ["--", "*"];
    assert "--"[2..] == "" && "*"[1..] == "";
    assert Run(k, "", LineComment) == LineComment && NoCut(k, "", LineComment);
    assert Run(k, "--", Normal) == LineComment && NoCut(k, "--", Normal);
    assert NoCut(k, "", Normal) && NoCut(k, "*", Normal);
    assert Standalone(k, ss[0]) && Standalone(k, ss[1]);
    assert ss[1..] == ["*"] && Join(["*"], "\n;") == "*";
    assert Join(ss, "\n;") == "--\n;*";
    JoinedStatements(k, ss);
    assert Run(k, ss[0], Normal) != Normal;
    PlainJoinIff(k, ss);
  }
}
