/**
  The SQL statement splitter of meritmolt/database.py as a six-mode automaton over the text,
  and the loop with five flags that implements it.
 */
module SqlSplitter {
  import opened Collections
  import opened Options

  /** The character tests the splitter borrows from the host language. */
  datatype Chars = Chars(alnum: char -> bool, space: char -> bool)

  ghost predicate Valid(k: Chars) {
    && (forall c :: !(k.alnum(c) && k.space(c)))
    && k.space('\n')
    && (forall c :: c in [';', '$', '_', '\'', '"', '-', '/', '*'] ==> !k.alnum(c) && !k.space(c))
  }

  datatype Mode = Normal | LineComment | BlockComment | Dollar(tag: string) | SingleQuoted | DoubleQuoted
  datatype Token = Token(len: nat, next: Mode)

  predicate TagChar(k: Chars, c: char) {
    k.alnum(c) || c == '_'
  }

  predicate IsTag(k: Chars, t: string) {
    2 <= |t| && t[0] == '$' && t[|t| - 1] == '$' && forall i :: 0 < i < |t| - 1 ==> TagChar(k, t[i])
  }

  predicate ModeOk(k: Chars, m: Mode) {
    m.Dollar? ==> IsTag(k, m.tag)
  }

  /** Where the run of tag characters starting at `j` ends. */
  function TagEnd(k: Chars, s: string, j: nat): (e: nat)
    requires j <= |s|
    ensures j <= e <= |s| && (forall i :: j <= i < e ==> TagChar(k, s[i])) && (e < |s| ==> !TagChar(k, s[e]))
    decreases |s| - j
  {
    if j < |s| && TagChar(k, s[j]) then TagEnd(k, s, j + 1) else j
  }

  predicate Pair(s: string, a: char, b: char) {
    1 < |s| && s[0] == a && s[1] == b
  }

  /** The token at the head of `s`: how many characters it takes and the mode after it. */
  function Lex(k: Chars, s: string, m: Mode): (t: Token)
    requires s != "" && ModeOk(k, m)
    ensures 1 <= t.len <= |s| && ModeOk(k, t.next)
  {
    match m
    case LineComment => Token(1, if s[0] == '\n' then Normal else LineComment)
    case BlockComment => if Pair(s, '*', '/') then Token(2, Normal) else Token(1, BlockComment)
    case Dollar(tag) => if s[0] == '$' && tag <= s then Token(|tag|, Normal) else Token(1, m)
    case SingleQuoted =>
      if s[0] != '\'' then Token(1, SingleQuoted)
      else if Pair(s, '\'', '\'') then Token(2, SingleQuoted) else Token(1, Normal)
    case DoubleQuoted =>
      if s[0] != '"' then Token(1, DoubleQuoted)
      else if Pair(s, '"', '"') then Token(2, DoubleQuoted) else Token(1, Normal)
    case Normal =>
      if Pair(s, '-', '-') then Token(2, LineComment)
      else if Pair(s, '/', '*') then Token(2, BlockComment)
      else if s[0] == '\'' then Token(1, SingleQuoted)
      else if s[0] == '"' then Token(1, DoubleQuoted)
      else if s[0] == '$' && TagEnd(k, s, 1) < |s| && s[TagEnd(k, s, 1)] == '$' then
        Token(TagEnd(k, s, 1) + 1, Dollar(s[..TagEnd(k, s, 1) + 1]))
      else Token(1, Normal)
  }

  /** The mode after reading all of `s`. */
  function Run(k: Chars, s: string, m: Mode): (end: Mode)
    requires ModeOk(k, m)
    ensures ModeOk(k, end)
    decreases |s|
  {
    if s == "" then m else Run(k, s[Lex(k, s, m).len..], Lex(k, s, m).next)
  }

  /** No semicolon of `s` is met in the normal mode. */
  predicate NoCut(k: Chars, s: string, m: Mode)
    requires ModeOk(k, m)
    decreases |s|
  {
    s == "" || (!(m.Normal? && s[0] == ';') && NoCut(k, s[Lex(k, s, m).len..], Lex(k, s, m).next))
  }

  function Prepend(head: string, segments: seq<string>): (r: seq<string>)
    requires segments != []
    ensures |r| == |segments|
  {
    [head + segments[0]] + segments[1..]
  }

  /** The raw pieces of `s` between the semicolons met in the normal mode. */
  function Segments(k: Chars, s: string, m: Mode): (r: seq<string>)
    requires ModeOk(k, m)
    ensures r != []
    decreases |s|
  {
    if s == "" then [""]
    else if m.Normal? && s[0] == ';' then [""] + Segments(k, s[1..], Normal)
    else Prepend(s[..Lex(k, s, m).len], Segments(k, s[Lex(k, s, m).len..], Lex(k, s, m).next))
  }

  function Join(parts: seq<string>, sep: string): string {
    if parts == [] then ""
    else if |parts| == 1 then parts[0]
    else parts[0] + sep + Join(parts[1..], sep)
  }

  predicate AllSpace(k: Chars, s: string) {
    forall i :: 0 <= i < |s| ==> k.space(s[i])
  }

  function LeftStrip(k: Chars, s: string): string {
    if s != "" && k.space(s[0]) then LeftStrip(k, s[1..]) else s
  }

  function RightStrip(k: Chars, s: string): string {
    if s != "" && k.space(s[|s| - 1]) then RightStrip(k, s[..|s| - 1]) else s
  }

  function Strip(k: Chars, s: string): string {
    RightStrip(k, LeftStrip(k, s))
  }

  /** Strip every segment and keep the ones that are not blank. */
  function Keep(k: Chars, segments: seq<string>): seq<string> {
    if segments == [] then []
    else (if Strip(k, segments[0]) == "" then [] else [Strip(k, segments[0])]) + Keep(k, segments[1..])
  }

  function Split(k: Chars, s: string): seq<string> {
    Keep(k, Segments(k, s, Normal))
  }

  // ---------- The loop ----------

  /** The loop's five mode variables. */
  datatype Flags = Flags(inSingle: bool, inDouble: bool, inLineComment: bool, inBlockComment: bool, dollarTag: Option<string>)

  function ModeOf(f: Flags): Mode {
    if f.inLineComment then LineComment
    else if f.inBlockComment then BlockComment
    else if f.dollarTag.Some? then Dollar(f.dollarTag.value)
    else if f.inSingle then SingleQuoted
    else if f.inDouble then DoubleQuoted
    else Normal
  }

  /** At most one of the five is on. */
  predicate OneMode(f: Flags) {
    Bit(f.inLineComment) + Bit(f.inBlockComment) + Bit(f.dollarTag.Some?) + Bit(f.inSingle) + Bit(f.inDouble) <= 1
  }

  /** What is still to come when `buf` holds the text of the current statement so far. */
  ghost function Pending(k: Chars, buf: string, rest: string, m: Mode): seq<string>
    requires ModeOk(k, m)
  {
    Keep(k, Prepend(buf, Segments(k, rest, m)))
  }

  lemma PrependNothing(segments: seq<string>)
    requires segments != []
    ensures Prepend("", segments) == segments
  {
    assert "" + segments[0] == segments[0];
  }

  lemma PendingToken(k: Chars, buf: string, rest: string, m: Mode)
    requires ModeOk(k, m) && rest != "" && !(m.Normal? && rest[0] == ';')
    ensures var t := Lex(k, rest, m); Pending(k, buf, rest, m) == Pending(k, buf + rest[..t.len], rest[t.len..], t.next)
  {
    var t := Lex(k, rest, m);
    var tail := Segments(k, rest[t.len..], t.next);
    assert buf + (rest[..t.len] + tail[0]) == buf + rest[..t.len] + tail[0];
    assert Prepend(buf, Prepend(rest[..t.len], tail)) == Prepend(buf + rest[..t.len], tail);
  }

  lemma PendingCut(k: Chars, buf: string, rest: string)
    requires rest != "" && rest[0] == ';'
    ensures Pending(k, buf, rest, Normal) ==
            (if Strip(k, buf) == "" then [] else [Strip(k, buf)]) + Pending(k, "", rest[1..], Normal)
  {
    var tail := Segments(k, rest[1..], Normal);
    PrependNothing(tail);
    assert Segments(k, rest, Normal) == [""] + tail;
    assert buf + "" == buf;
    assert Prepend(buf, [""] + tail) == [buf] + tail;
  }

  lemma PendingEnd(k: Chars, buf: string, m: Mode)
    requires ModeOk(k, m)
    ensures Pending(k, buf, "", m) == if Strip(k, buf) == "" then [] else [Strip(k, buf)]
  {
    assert buf + "" == buf;
    var segments := Prepend(buf, Segments(k, "", m));
    assert segments == [buf] && segments[1..] == [];
    assert Keep(k, segments[1..]) == [];
  }

  lemma {:induction false} TagEndShift(k: Chars, s: string, i: nat, j: nat)
    requires i <= j <= |s|
    ensures TagEnd(k, s, j) == i + TagEnd(k, s[i..], j - i)
    decreases |s| - j
  {
    if j < |s| && TagChar(k, s[j]) { TagEndShift(k, s, i, j + 1); }
  }

  /** The next character, "" at the end of the text. */
  function NextChar(s: string, i: nat): string {
    if i + 1 < |s| then [s[i + 1]] else ""
  }

  /** A dollar-quote tag starts at `i`. */
  predicate TagStarts(k: Chars, s: string, i: nat)
    requires i < |s|
  {
    s[i] == '$' && TagEnd(k, s, i + 1) < |s| && s[TagEnd(k, s, i + 1)] == '$'
  }

  /** The token at index `i` by the characters there. */
  ghost predicate TokenIs(k: Chars, sql: string, i: nat, m: Mode, len: nat, next: Mode) {
    && i < |sql| && 1 <= len <= |sql| - i
    && var ch, nxt := sql[i], NextChar(sql, i);
      match m
      case LineComment => len == 1 && next == (if ch == '\n' then Normal else LineComment)
      case BlockComment => if ch == '*' && nxt == "/" then len == 2 && next == Normal else len == 1 && next == BlockComment
      case Dollar(tag) => if ch == '$' && tag <= sql[i..] then len == |tag| && next == Normal else len == 1 && next == m
      case SingleQuoted =>
        if ch != '\'' then len == 1 && next == SingleQuoted
        else if nxt == "'" then len == 2 && next == SingleQuoted else len == 1 && next == Normal
      case DoubleQuoted =>
        if ch != '"' then len == 1 && next == DoubleQuoted
        else if nxt == "\"" then len == 2 && next == DoubleQuoted else len == 1 && next == Normal
      case Normal =>
        if ch == '-' && nxt == "-" then len == 2 && next == LineComment
        else if ch == '/' && nxt == "*" then len == 2 && next == BlockComment
        else if ch == '\'' then len == 1 && next == SingleQuoted
        else if ch == '"' then len == 1 && next == DoubleQuoted
        else if TagStarts(k, sql, i) then len == TagEnd(k, sql, i + 1) + 1 - i && next == Dollar(sql[i..i + len])
        else len == 1 && next == Normal
  }

  lemma LexIsToken(k: Chars, sql: string, i: nat, m: Mode)
    requires i < |sql| && ModeOk(k, m)
    ensures var t := Lex(k, sql[i..], m); TokenIs(k, sql, i, m, t.len, t.next)
  {
    var rest := sql[i..];
    var t := Lex(k, rest, m);
    TagEndShift(k, sql, i, i + 1);
    assert rest[..t.len] == sql[i..i + t.len];
  }

  /** Read the token at `i`: everything the loop body does except at a statement boundary. */
  method ReadToken(k: Chars, sql: string, i: nat, buf: string, flags: Flags, ghost len: nat, ghost next: Mode)
    returns (i': nat, buf': string, flags': Flags)
    requires OneMode(flags) && TokenIs(k, sql, i, ModeOf(flags), len, next)
    ensures i' == i + len && buf' == buf + sql[i..i + len] && OneMode(flags') && ModeOf(flags') == next
  {
    i', buf', flags' := i, buf, flags;
    var n := |sql|;
    var ch, nxt := sql[i], NextChar(sql, i);
    assert sql[i..i + 1] == [ch];
    assert nxt != "" ==> sql[i..i + 2] == [ch] + nxt;

    if flags.inLineComment {
      buf' := buf + [ch];
      if ch == '\n' {
        flags' := flags.(inLineComment := false);
      }
      i' := i + 1;
      return;
    }

    if flags.inBlockComment {
      if ch == '*' && nxt == "/" {
        buf' := buf + ([ch] + nxt);
        flags' := flags.(inBlockComment := false);
        i' := i + 2;
      } else {
        buf' := buf + [ch];
        i' := i + 1;
      }
      return;
    }

    if flags.dollarTag.Some? {
      if ch == '$' {
        var tag := flags.dollarTag.value;
        if tag <= sql[i..] {
          assert sql[i..i + |tag|] == tag;
          buf' := buf + tag;
          flags' := flags.(dollarTag := None);
          i' := i + |tag|;
          return;
        }
      }
      buf' := buf + [ch];
      i' := i + 1;
      return;
    }

    if flags.inSingle {
      if ch == '\'' {
        if nxt == "'" {
          buf' := buf + ([ch] + nxt);
          i' := i + 2;
        } else {
          buf' := buf + [ch];
          flags' := flags.(inSingle := false);
          i' := i + 1;
        }
      } else {
        buf' := buf + [ch];
        i' := i + 1;
      }
      return;
    }

    if flags.inDouble {
      if ch == '"' {
        if nxt == "\"" {
          buf' := buf + ([ch] + nxt);
          i' := i + 2;
        } else {
          buf' := buf + [ch];
          flags' := flags.(inDouble := false);
          i' := i + 1;
        }
      } else {
        buf' := buf + [ch];
        i' := i + 1;
      }
      return;
    }

    if ch == '-' && nxt == "-" {
      buf' := buf + ([ch] + nxt);
      flags' := flags.(inLineComment := true);
      i' := i + 2;
      return;
    }
    if ch == '/' && nxt == "*" {
      buf' := buf + ([ch] + nxt);
      flags' := flags.(inBlockComment := true);
      i' := i + 2;
      return;
    }

    if ch == '\'' {
      buf' := buf + [ch];
      flags' := flags.(inSingle := true);
      i' := i + 1;
      return;
    }
    if ch == '"' {
      buf' := buf + [ch];
      flags' := flags.(inDouble := true);
      i' := i + 1;
      return;
    }

    if ch == '$' {
      var j := i + 1;
      while j < n && TagChar(k, sql[j])
        invariant i + 1 <= j <= n
        invariant TagEnd(k, sql, i + 1) == TagEnd(k, sql, j)
      {
        j := j + 1;
      }
      if j < n && sql[j] == '$' {
        flags' := flags.(dollarTag := Some(sql[i..j + 1]));
        buf' := buf + sql[i..j + 1];
        i' := j + 1;
        return;
      }
    }

    buf' := buf + [ch];
    i' := i + 1;
  }

  /** What reading the token at `i` leaves pending. */
  lemma PendingAtToken(k: Chars, sql: string, i: nat, buf: string, m: Mode) returns (len: nat, next: Mode)
    requires i < |sql| && ModeOk(k, m) && !(m.Normal? && sql[i] == ';')
    ensures TokenIs(k, sql, i, m, len, next) && ModeOk(k, next)
    ensures Pending(k, buf, sql[i..], m) == Pending(k, buf + sql[i..i + len], sql[i + len..], next)
  {
    var rest := sql[i..];
    var t := Lex(k, rest, m);
    len, next := t.len, t.next;
    LexIsToken(k, sql, i, m);
    PendingToken(k, buf, rest, m);
    assert rest[..t.len] == sql[i..i + t.len] && rest[t.len..] == sql[i + t.len..];
  }

  lemma PendingAtCut(k: Chars, sql: string, i: nat, buf: string)
    requires i < |sql| && sql[i] == ';'
    ensures Pending(k, buf, sql[i..], Normal) ==
            (if Strip(k, buf) == "" then [] else [Strip(k, buf)]) + Pending(k, "", sql[i + 1..], Normal)
  {
    PendingCut(k, buf, sql[i..]);
    assert sql[i..][1..] == sql[i + 1..];
  }

  lemma PendingAtStart(k: Chars, sql: string)
    ensures Pending(k, "", sql[0..], Normal) == Split(k, sql)
  {
    assert sql[0..] == sql;
    PrependNothing(Segments(k, sql, Normal));
  }

  /** A boundary moves the statement, if there is one, from what is pending to what is done. */
  lemma CutKeeps(k: Chars, sql: string, i: nat, buf: string, done: seq<string>)
    requires i < |sql| && sql[i] == ';'
    ensures done + (if Strip(k, buf) == "" then [] else [Strip(k, buf)]) + Pending(k, "", sql[i + 1..], Normal)
            == done + Pending(k, buf, sql[i..], Normal)
  {
    PendingAtCut(k, sql, i, buf);
    Regroup(done, if Strip(k, buf) == "" then [] else [Strip(k, buf)], Pending(k, "", sql[i + 1..], Normal));
  }

  lemma Regroup(done: seq<string>, one: seq<string>, rest: seq<string>)
    ensures done + (one + rest) == (done + one) + rest
  {
  }

  /** Add a stripped statement unless it is blank. */
  method Flush(k: Chars, buf: string, done: seq<string>) returns (statements: seq<string>)
    ensures statements == done + if Strip(k, buf) == "" then [] else [Strip(k, buf)]
  {
    statements := done;
    var stmt := Strip(k, buf);
    if stmt != "" {
      statements := statements + [stmt];
    }
  }

  method Advance(k: Chars, sql: string, i: nat, buf: string, flags: Flags) returns (i': nat, buf': string, flags': Flags)
    requires i < |sql| && OneMode(flags) && ModeOk(k, ModeOf(flags)) && !(ModeOf(flags) == Normal && sql[i] == ';')
    ensures i < i' <= |sql| && OneMode(flags') && ModeOk(k, ModeOf(flags'))
    ensures Pending(k, buf', sql[i'..], ModeOf(flags')) == Pending(k, buf, sql[i..], ModeOf(flags))
  {
    ghost var len, next := PendingAtToken(k, sql, i, buf, ModeOf(flags));
    i', buf', flags' := ReadToken(k, sql, i, buf, flags, len, next);
  }

  method SplitSqlStatements(k: Chars, sql: string) returns (statements: seq<string>)
    ensures statements == Split(k, sql)
  {
    statements := [];
    var buf := "";
    var flags := Flags(false, false, false, false, None);
    var i, n := 0, |sql|;
    PendingAtStart(k, sql);
    while i < n
      invariant 0 <= i <= n && OneMode(flags) && ModeOk(k, ModeOf(flags))
      invariant statements + Pending(k, buf, sql[i..], ModeOf(flags)) == Split(k, sql)
      decreases n - i
    {
      if ModeOf(flags) == Normal && sql[i] == ';' {
        CutKeeps(k, sql, i, buf, statements);
        statements := Flush(k, buf, statements);
        buf := "";
        i := i + 1;
      } else {
        i, buf, flags := Advance(k, sql, i, buf, flags);
      }
    }
    assert sql[i..] == "";
    PendingEnd(k, buf, ModeOf(flags));
    statements := Flush(k, buf, statements);
  }
}
