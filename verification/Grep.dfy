/** grep's regular expressions. Patterns and texts are the characters before the
    terminating NUL. */
module Grep {

  // ---------- meaning ----------

  datatype Item = One(c: char) | Star(c: char)

  /** A pattern after a leading '^': its items, and whether a final '$' ends it. */
  datatype Pattern = Pattern(items: seq<Item>, end: bool)

  function Parse(re: string): Pattern {
    if re == "" then Pattern([], false)
    else if |re| >= 2 && re[1] == '*' then
      var p := Parse(re[2..]);
      Pattern([Star(re[0])] + p.items, p.end)
    else if re == "$" then Pattern([], true)
    else
      var p := Parse(re[1..]);
      Pattern([One(re[0])] + p.items, p.end)
  }

  /** A pattern as it is written. */
  function Written(p: Pattern): string
    decreases |p.items|
  {
    if p.items == [] then (if p.end then "$" else "")
    else (if p.items[0].Star? then [p.items[0].c, '*'] else [p.items[0].c]) + Written(Pattern(p.items[1..], p.end))
  }

  /** No plain character is followed by a star, which would belong to it, and none is a
      final '$', which would end the text. */
  predicate Readable(p: Pattern) {
    && (forall k :: 0 <= k < |p.items| - 1 && p.items[k].One? ==> p.items[k + 1].c != '*')
    && (p.items != [] && p.items[|p.items| - 1] == One('$') ==> p.end)
  }

  /** Every string is one readable pattern, written out. */
  lemma {:induction false} ParseReads(re: string)
    ensures Written(Parse(re)) == re && Readable(Parse(re))
  {
    hide Readable, Written;
    ParseReadable(re);
    if re == "" || re == "$" {
      WrittenEnd(re == "$");
    } else {
      var n := if |re| >= 2 && re[1] == '*' then 2 else 1;
      ParseReads(re[n..]);
      var p, q := Parse(re), Parse(re[n..]);
      assert p.items == [p.items[0]] + q.items;
      WrittenMore(p.items[0], q);
      assert re == re[..n] + re[n..];
    }
  }

  lemma WrittenEnd(end: bool)
    ensures Written(Pattern([], end)) == if end then "$" else ""
  {
  }

  lemma WrittenMore(x: Item, p: Pattern)
    ensures Written(Pattern([x] + p.items, p.end)) == (if x.Star? then [x.c, '*'] else [x.c]) + Written(p)
  {
    assert ([x] + p.items)[1..] == p.items;
  }

  lemma {:induction false} ParseReadable(re: string)
    ensures Readable(Parse(re))
  {
    if re != "" && re != "$" {
      var n := if |re| >= 2 && re[1] == '*' then 2 else 1;
      ParseReadable(re[n..]);
      var p, q := Parse(re), Parse(re[n..]);
      assert p.items == [p.items[0]] + q.items;
      assert q.items != [] ==> q.items[0].c == re[n];
      forall k | 0 <= k < |p.items| - 1 && p.items[k].One? ensures p.items[k + 1].c != '*' {
        assert k > 0 ==> p.items[k] == q.items[k - 1] && p.items[k + 1] == q.items[k];
      }
    }
  }

  lemma {:induction false} ParseWritten(p: Pattern)
    requires Readable(p)
    ensures Parse(Written(p)) == p
    decreases |p.items|
  {
    if p.items != [] {
      var q := Pattern(p.items[1..], p.end);
      ParseWritten(q);
      var re, n := Written(p), if p.items[0].Star? then 2 else 1;
      assert re[n..] == Written(q);
      assert p.items == [p.items[0]] + q.items;
    }
  }

  /** Character t is one that c stands for. */
  predicate Accepts(c: char, t: char) {
    c == '.' || c == t
  }

  /** The text from j to k is a match of one item. */
  predicate Piece(x: Item, text: string, j: nat, k: nat) {
    && j <= k <= |text|
    && (x.One? ==> k == j + 1)
    && forall m :: j <= m < k ==> Accepts(x.c, text[m])
  }

  /** Places where the text can be cut, from j on, into one piece per item. */
  ghost predicate Cuts(p: Pattern, text: string, j: nat, cuts: seq<nat>) {
    && |cuts| == |p.items| + 1 && cuts[0] == j
    && (forall k :: 0 <= k < |p.items| ==> Piece(p.items[k], text, cuts[k], cuts[k + 1]))
    && (p.end ==> cuts[|p.items|] == |text|)
  }

  ghost predicate MatchesAt(p: Pattern, text: string, j: nat) {
    exists cuts :: Cuts(p, text, j, cuts)
  }

  /** What grep promises: a match of the pattern anywhere, or with '^' at the start. */
  ghost predicate Matches(re: string, text: string) {
    if re != "" && re[0] == '^' then MatchesAt(Parse(re[1..]), text, 0)
    else exists j :: 0 <= j <= |text| && MatchesAt(Parse(re), text, j)
  }

  // ---------- one item at a time ----------

  lemma NoItems(p: Pattern, text: string, j: nat)
    requires p.items == []
    ensures MatchesAt(p, text, j) <==> (p.end ==> j == |text|)
  {
    if p.end ==> j == |text| {
      assert Cuts(p, text, j, [j]);
    }
  }

  function Tail(p: Pattern): Pattern
    requires p.items != []
  {
    Pattern(p.items[1..], p.end)
  }

  lemma FirstItem(p: Pattern, text: string, j: nat, k: nat)
    requires p.items != [] && Piece(p.items[0], text, j, k) && MatchesAt(Tail(p), text, k)
    ensures MatchesAt(p, text, j)
  {
    var cuts :| Cuts(Tail(p), text, k, cuts);
    var all := [j] + cuts;
    forall n | 0 <= n < |p.items| ensures Piece(p.items[n], text, all[n], all[n + 1]) {
      if n > 0 {
        assert Piece(Tail(p).items[n - 1], text, cuts[n - 1], cuts[n]);
      }
    }
    assert Cuts(p, text, j, all);
  }

  lemma SplitFirst(p: Pattern, text: string, j: nat) returns (k: nat)
    requires p.items != [] && MatchesAt(p, text, j)
    ensures Piece(p.items[0], text, j, k) && MatchesAt(Tail(p), text, k)
  {
    var cuts :| Cuts(p, text, j, cuts);
    k := cuts[1];
    assert Piece(p.items[0], text, cuts[0], cuts[1]);
    forall n | 0 <= n < |Tail(p).items| ensures Piece(Tail(p).items[n], text, cuts[1..][n], cuts[1..][n + 1]) {
      assert Piece(p.items[n + 1], text, cuts[n + 1], cuts[n + 2]);
    }
    assert Cuts(Tail(p), text, k, cuts[1..]);
  }

  /** A single character: one way to go on. */
  lemma OneItem(p: Pattern, text: string, j: nat)
    requires p.items != [] && p.items[0].One? && j <= |text|
    ensures MatchesAt(p, text, j) <==> j < |text| && Accepts(p.items[0].c, text[j]) && MatchesAt(Tail(p), text, j + 1)
  {
    if MatchesAt(p, text, j) {
      var k := SplitFirst(p, text, j);
    }
    if j < |text| && Accepts(p.items[0].c, text[j]) && MatchesAt(Tail(p), text, j + 1) {
      FirstItem(p, text, j, j + 1);
    }
  }

  /** A starred character: any number of steps over characters it stands for. */
  lemma StarItem(p: Pattern, text: string, j: nat)
    requires p.items != [] && p.items[0].Star?
    ensures MatchesAt(p, text, j) <==> exists k :: Piece(p.items[0], text, j, k) && MatchesAt(Tail(p), text, k)
  {
    if MatchesAt(p, text, j) {
      var k := SplitFirst(p, text, j);
    }
    if exists k :: Piece(p.items[0], text, j, k) && MatchesAt(Tail(p), text, k) {
      var k :| Piece(p.items[0], text, j, k) && MatchesAt(Tail(p), text, k);
      FirstItem(p, text, j, k);
    }
  }

  // ---------- code ----------

  /** matchhere: the pattern from i on, at j. */
  method MatchHere(re: string, i: nat, text: string, j: nat) returns (b: bool)
    requires i <= |re| && j <= |text|
    ensures b <==> MatchesAt(Parse(re[i..]), text, j)
    decreases |re| - i, 0
  {
    hide MatchesAt, Accepts;
    var p := Parse(re[i..]);
    if i == |re| {
      NoItems(p, text, j);
      return true;
    }
    if i + 1 < |re| && re[i + 1] == '*' {
      assert re[i..][2..] == re[i + 2..];
      assert Tail(p) == Parse(re[i + 2..]);
      StarItem(p, text, j);
      b := MatchStar(re[i], re, i + 2, text, j);
      return;
    }
    if re[i] == '$' && i + 1 == |re| {
      assert re[i..] == "$";
      NoItems(p, text, j);
      return j == |text|;
    }
    assert re[i..][1..] == re[i + 1..];
    assert Tail(p) == Parse(re[i + 1..]);
    OneItem(p, text, j);
    if j < |text| && (re[i] == '.' || re[i] == text[j]) {
      DotOrSame(re[i], text[j]);
      b := MatchHere(re, i + 1, text, j + 1);
      return;
    }
    if j < |text| {
      DotOrSame(re[i], text[j]);
    }
    return false;
  }

  lemma DotOrSame(c: char, t: char)
    ensures Accepts(c, t) <==> c == '.' || c == t
  {
  }

  /** matchstar: any number of c, then the pattern from i on, at j. */
  method MatchStar(c: char, re: string, i: nat, text: string, j: nat) returns (b: bool)
    requires i <= |re| && j <= |text|
    ensures b <==> exists k :: Piece(Star(c), text, j, k) && MatchesAt(Parse(re[i..]), text, k)
    decreases |re| - i, 1
  {
    hide MatchesAt;
    var k := j;
    while true
      invariant j <= k <= |text| && Piece(Star(c), text, j, k)
      invariant forall m :: j <= m < k ==> !MatchesAt(Parse(re[i..]), text, m)
      decreases |text| - k
    {
      b := MatchHere(re, i, text, k);
      if b {
        return;
      }
      if k == |text| || !(text[k] == c || c == '.') {
        break;
      }
      k := k + 1;
    }
  }

  /** match. */
  method Match(re: string, text: string) returns (b: bool)
    ensures b <==> Matches(re, text)
  {
    hide MatchesAt;
    if re != "" && re[0] == '^' {
      b := MatchHere(re, 1, text, 0);
      return;
    }
    var j := 0;
    assert re[0..] == re;
    while true
      invariant 0 <= j <= |text| && forall m :: 0 <= m < j ==> !MatchesAt(Parse(re), text, m)
      decreases |text| - j
    {
      b := MatchHere(re, 0, text, j);
      if b {
        return;
      }
      if j == |text| {
        break;
      }
      j := j + 1;
    }
  }

  // ---------- plain words ----------

  predicate Plain(re: string) {
    forall i :: 0 <= i < |re| ==> re[i] != '^' && re[i] != '$' && re[i] != '.' && re[i] != '*'
  }

  predicate OccursAt(re: string, text: string, j: nat) {
    j + |re| <= |text| && text[j..j + |re|] == re
  }

  lemma {:induction false} PlainAt(re: string, text: string, j: nat)
    requires Plain(re) && j <= |text|
    ensures MatchesAt(Parse(re), text, j) <==> OccursAt(re, text, j)
    decreases |re|
  {
    var p := Parse(re);
    if re == "" {
      NoItems(p, text, j);
    } else {
      OneItem(p, text, j);
      assert Tail(p) == Parse(re[1..]);
      if j < |text| {
        PlainAt(re[1..], text, j + 1);
        if j + |re| <= |text| {
          assert text[j..j + |re|] == [text[j]] + text[j + 1..j + |re|];
          assert re == [re[0]] + re[1..];
        }
      }
    }
  }

  /** A pattern without special characters is looked for as it stands. */
  lemma PlainIsSubstring(re: string, text: string)
    requires Plain(re)
    ensures Matches(re, text) <==> exists j :: OccursAt(re, text, j)
  {
    hide MatchesAt;
    forall j: nat | j <= |text| ensures MatchesAt(Parse(re), text, j) <==> OccursAt(re, text, j) {
      PlainAt(re, text, j);
    }
  }
}
