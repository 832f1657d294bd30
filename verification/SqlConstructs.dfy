/**
  What each SQL construct hides from the splitter, said of the text alone: a quoted text, a comment or a
  dollar-quoted body is skipped as a whole, and only a semicolon outside all of them cuts.
 */
module SqlConstructs {
  import opened SqlSplitter
  import opened SqlSplitterProofs

  /** After `a` the rest is read as if `a` were not there, and `a` holds no cut. */
  ghost predicate Skipped(k: Chars, a: string, m: Mode, rest: string, next: Mode)
    requires ModeOk(k, m) && ModeOk(k, next)
  {
    && Run(k, a + rest, m) == Run(k, rest, next)
    && (NoCut(k, a + rest, m) <==> NoCut(k, rest, next))
  }

  /** One token. */
  lemma TokenSkipped(k: Chars, a: string, m: Mode, rest: string, next: Mode)
    requires ModeOk(k, m) && ModeOk(k, next) && a != "" && !(m.Normal? && a[0] == ';')
    requires Lex(k, a + rest, m) == Token(|a|, next)
    ensures Skipped(k, a, m, rest, next)
  {
    assert (a + rest)[0] == a[0];
    assert (a + rest)[|a|..] == rest;
  }

  /** Two texts in a row. */
  lemma SkippedTwice(k: Chars, a: string, m: Mode, b: string, between: Mode, rest: string, next: Mode)
    requires ModeOk(k, m) && ModeOk(k, between) && ModeOk(k, next)
    requires Skipped(k, a, m, b + rest, between) && Skipped(k, b, between, rest, next)
    ensures Skipped(k, a + b, m, rest, next)
  {
    assert a + b + rest == a + (b + rest);
  }

  // ---------- Quotes ----------

  predicate Quote(q: char) {
    q == '\'' || q == '\"'
  }

  function Quoted(q: char): Mode {
    if q == '\"' then DoubleQuoted else SingleQuoted
  }

  predicate Without(x: string, q: char) {
    forall i :: 0 <= i < |x| ==> x[i] != q
  }

  lemma {:induction false} QuoteBody(k: Chars, q: char, x: string, rest: string)
    requires Quote(q) && Without(x, q)
    ensures Skipped(k, x, Quoted(q), rest, Quoted(q))
    decreases |x|
  {
    if x == "" {
      assert "" + rest == rest;
    } else {
      var a, b := x[..1], x[1..];
      assert x == a + b && (a + (b + rest))[0] == x[0];
      TokenSkipped(k, a, Quoted(q), b + rest, Quoted(q));
      QuoteBody(k, q, b, rest);
      SkippedTwice(k, a, Quoted(q), b, Quoted(q), rest, Quoted(q));
    }
  }

  /** A quoted text is skipped as a whole, whatever it holds; a doubled quote inside does not end it. */
  lemma QuotedSkipped(k: Chars, q: char, x: string, rest: string)
    requires Quote(q) && Without(x, q) && (rest != "" ==> rest[0] != q)
    ensures Skipped(k, [q] + x + [q], Normal, rest, Normal)
  {
    var close := [q] + rest;
    assert close[0] == q;
    assert |close| > 1 ==> close[1] == rest[0];
    TokenSkipped(k, [q], Quoted(q), rest, Normal);
    QuoteBody(k, q, x, close);
    SkippedTwice(k, x, Quoted(q), [q], Quoted(q), rest, Normal);
    QuoteOpens(k, q, x + [q] + rest);
    assert x + [q] + rest == (x + [q]) + rest;
    SkippedTwice(k, [q], Normal, x + [q], Quoted(q), rest, Normal);
    assert [q] + x + [q] == [q] + (x + [q]);
  }

  lemma QuoteOpens(k: Chars, q: char, rest: string)
    requires Quote(q)
    ensures Skipped(k, [q], Normal, rest, Quoted(q))
  {
    assert ([q] + rest)[0] == q;
    TokenSkipped(k, [q], Normal, rest, Quoted(q));
  }

  lemma DoubledQuote(k: Chars, q: char, rest: string)
    requires Quote(q)
    ensures Skipped(k, [q, q], Quoted(q), rest, Quoted(q))
  {
    assert ([q, q] + rest)[0] == q && ([q, q] + rest)[1] == q;
    TokenSkipped(k, [q, q], Quoted(q), rest, Quoted(q));
  }

  // ---------- Comments ----------

  lemma {:induction false} LineBody(k: Chars, x: string, rest: string)
    requires Without(x, '\n')
    ensures Skipped(k, x, LineComment, rest, LineComment)
    decreases |x|
  {
    if x == "" {
      assert "" + rest == rest;
    } else {
      var a, b := x[..1], x[1..];
      assert x == a + b && (a + (b + rest))[0] == x[0];
      TokenSkipped(k, a, LineComment, b + rest, LineComment);
      LineBody(k, b, rest);
      SkippedTwice(k, a, LineComment, b, LineComment, rest, LineComment);
    }
  }

  /** A line comment is skipped up to and with the end of its line. */
  lemma LineCommentSkipped(k: Chars, x: string, rest: string)
    requires Without(x, '\n')
    ensures Skipped(k, "--" + x + "\n", Normal, rest, Normal)
  {
    assert ("\n" + rest)[0] == '\n';
    TokenSkipped(k, "\n", LineComment, rest, Normal);
    LineBody(k, x, "\n" + rest);
    SkippedTwice(k, x, LineComment, "\n", LineComment, rest, Normal);
    var body := x + "\n";
    assert ("--" + (body + rest))[0] == '-' && ("--" + (body + rest))[1] == '-';
    TokenSkipped(k, "--", Normal, body + rest, LineComment);
    SkippedTwice(k, "--", Normal, body, LineComment, rest, Normal);
    assert "--" + x + "\n" == "--" + body;
  }

  const START: string := ['/', '*']
  const END: string := ['*', '/']

  /** The first end of a block comment in `x` followed by "*" and "/" is that one. */
  predicate NoBlockEnd(x: string) {
    forall i :: 0 <= i < |x| ==> !(x[i] == '*' && (x + "*")[i + 1] == '/')
  }

  lemma {:induction false} BlockBody(k: Chars, x: string, rest: string)
    requires NoBlockEnd(x)
    ensures Skipped(k, x, BlockComment, END + rest, BlockComment)
    decreases |x|
  {
    if x == "" {
      assert "" + (END + rest) == END + rest;
    } else {
      var a, b := x[..1], x[1..];
      var tail := b + (END + rest);
      assert x == a + b && (a + tail)[0] == x[0];
      assert (a + tail)[1] == (x + "*")[1];
      assert !(x[0] == '*' && (x + "*")[0 + 1] == '/');
      TokenSkipped(k, a, BlockComment, tail, BlockComment);
      forall i | 0 <= i < |b| ensures !(b[i] == '*' && (b + "*")[i + 1] == '/') {
        assert b[i] == x[i + 1] && (b + "*")[i + 1] == (x + "*")[i + 2];
      }
      BlockBody(k, b, rest);
      SkippedTwice(k, a, BlockComment, b, BlockComment, END + rest, BlockComment);
    }
  }

  /** A block comment is skipped up to and with the first end after its start; comments do not nest. */
  lemma BlockCommentSkipped(k: Chars, x: string, rest: string)
    requires NoBlockEnd(x)
    ensures Skipped(k, START + x + END, Normal, rest, Normal)
  {
    assert (END + rest)[0] == '*' && (END + rest)[1] == '/';
    TokenSkipped(k, END, BlockComment, rest, Normal);
    BlockBody(k, x, rest);
    SkippedTwice(k, x, BlockComment, END, BlockComment, rest, Normal);
    var body := x + END;
    assert (START + (body + rest))[0] == '/' && (START + (body + rest))[1] == '*';
    TokenSkipped(k, START, Normal, body + rest, BlockComment);
    SkippedTwice(k, START, Normal, body, BlockComment, rest, Normal);
    assert START + x + END == START + body;
  }

  // ---------- Dollar-quoted bodies ----------

  /** Letters, digits and underscores, none or more. */
  predicate Word(k: Chars, w: string) {
    forall i :: 0 <= i < |w| ==> k.alnum(w[i]) || w[i] == '_'
  }

  function Tag(w: string): string {
    "$" + w + "$"
  }

  /** The tag does not start anywhere in `x` followed by the tag. */
  predicate NoTag(x: string, tag: string) {
    forall i :: 0 <= i < |x| ==> !(tag <= (x + tag)[i..])
  }

  lemma TagIsTag(k: Chars, w: string)
    requires Word(k, w)
    ensures IsTag(k, Tag(w))
  {
    var t := Tag(w);
    forall i | 0 < i < |t| - 1 ensures TagChar(k, t[i]) { assert t[i] == w[i - 1]; }
  }

  lemma {:induction false} TagEndOf(k: Chars, w: string, rest: string, j: nat)
    requires Valid(k) && Word(k, w) && 1 <= j <= |w| + 1
    ensures TagEnd(k, Tag(w) + rest, j) == |w| + 1
    decreases |w| + 1 - j
  {
    var s := Tag(w) + rest;
    if j <= |w| {
      assert s[j] == w[j - 1];
      TagEndOf(k, w, rest, j + 1);
    } else {
      assert s[j] == '$';
    }
  }

  lemma TagOpens(k: Chars, w: string, rest: string)
    requires Valid(k) && Word(k, w)
    ensures IsTag(k, Tag(w)) && Skipped(k, Tag(w), Normal, rest, Dollar(Tag(w)))
  {
    TagIsTag(k, w);
    TagEndOf(k, w, rest, 1);
    var s := Tag(w) + rest;
    assert s[0] == '$' && s[|w| + 1] == '$' && s[..|w| + 2] == Tag(w);
    TokenSkipped(k, Tag(w), Normal, rest, Dollar(Tag(w)));
  }

  lemma TagCloses(k: Chars, tag: string, rest: string)
    requires IsTag(k, tag)
    ensures Skipped(k, tag, Dollar(tag), rest, Normal)
  {
    assert (tag + rest)[0] == '$' && tag <= tag + rest;
    TokenSkipped(k, tag, Dollar(tag), rest, Normal);
  }

  lemma {:induction false} DollarBody(k: Chars, tag: string, x: string, rest: string)
    requires IsTag(k, tag) && NoTag(x, tag)
    ensures Skipped(k, x, Dollar(tag), tag + rest, Dollar(tag))
    decreases |x|
  {
    if x == "" {
      assert "" + (tag + rest) == tag + rest;
    } else {
      var a, b := x[..1], x[1..];
      var tail := b + (tag + rest);
      NoTagHere(x, tag, rest);
      assert x == a + b && a + tail == x + (tag + rest);
      TokenSkipped(k, a, Dollar(tag), tail, Dollar(tag));
      forall i | 0 <= i < |b| ensures !(tag <= (b + tag)[i..]) { assert (b + tag)[i..] == (x + tag)[i + 1..]; }
      DollarBody(k, tag, b, rest);
      SkippedTwice(k, a, Dollar(tag), b, Dollar(tag), tag + rest, Dollar(tag));
    }
  }

  lemma NoTagHere(x: string, tag: string, rest: string)
    requires x != "" && NoTag(x, tag)
    ensures !(tag <= x + (tag + rest))
  {
    assert (x + tag)[0..] == x + tag && x + (tag + rest) == x + tag + rest;
    ShortPrefix(tag, x + tag, rest);
  }

  lemma ShortPrefix(t: string, a: string, rest: string)
    requires |t| <= |a|
    ensures t <= a + rest <==> t <= a
  {
    assert (a + rest)[..|t|] == a[..|t|];
  }

  /** A dollar-quoted body is skipped up to and with the first repetition of its tag, other tags, quotes and semicolons included. */
  lemma DollarSkipped(k: Chars, w: string, x: string, rest: string)
    requires Valid(k) && Word(k, w) && NoTag(x, Tag(w))
    ensures Skipped(k, Tag(w) + x + Tag(w), Normal, rest, Normal)
  {
    var tag := Tag(w);
    TagOpens(k, w, (x + tag) + rest);
    TagCloses(k, tag, rest);
    DollarBody(k, tag, x, rest);
    SkippedTwice(k, x, Dollar(tag), tag, Dollar(tag), rest, Normal);
    SkippedTwice(k, tag, Normal, x + tag, Dollar(tag), rest, Normal);
    assert tag + x + tag == tag + (x + tag);
  }

  // ---------- Everything else ----------

  /** Nothing starts at the head of `s`: no quote, no comment, no tag. */
  predicate Ordinary(k: Chars, s: string)
    requires s != ""
  {
    && s[0] != '\'' && s[0] != '"'
    && (|s| > 1 ==> !(s[0] == '-' && s[1] == '-') && !(s[0] == '/' && s[1] == '*'))
    && (s[0] == '$' ==> forall e :: 1 <= e < |s| && s[e] == '$' ==> exists i :: 1 <= i < e && !k.alnum(s[i]) && s[i] != '_')
  }

  /** Any other character is read by itself, and cuts exactly if it is a semicolon. */
  lemma OrdinaryChar(k: Chars, c: char, rest: string)
    requires Valid(k) && Ordinary(k, [c] + rest)
    ensures Run(k, [c] + rest, Normal) == Run(k, rest, Normal)
    ensures NoCut(k, [c] + rest, Normal) <==> c != ';' && NoCut(k, rest, Normal)
  {
    var s := [c] + rest;
    assert s[0] == c && s[1..] == rest;
    assert forall i :: 1 <= i < TagEnd(k, s, 1) ==> TagChar(k, s[i]);
    assert Lex(k, s, Normal) == Token(1, Normal);
  }
}
