/** The sign-up form's email test, `/\S+@\S+\.\S+/.test(email)`: an unanchored regular
    expression, so it asks whether SOME piece of the text has the shape
    non-whitespace+ `@` non-whitespace+ `.` non-whitespace+. */
module EmailPattern {
  import opened JsText

  /** The piece `s[i..j]` matches `\S+@\S+\.\S+` with the `@` at `p` and the `.` at `q`. */
  predicate MatchAt(s: string, i: int, p: int, q: int, j: int) {
    && 0 <= i < p && p + 1 < q && q + 1 < j <= |s|
    && NonWhitespace(s[i..p]) && s[p] == '@'
    && NonWhitespace(s[p + 1..q]) && s[q] == '.'
    && NonWhitespace(s[q + 1..j])
  }

  /** `RegExp.prototype.test` for the unanchored pattern: some piece of `s` matches. */
  predicate RegexTest(s: string) {
    exists i, p, q, j | 0 <= i < p < q < j <= |s| :: MatchAt(s, i, p, q, j)
  }

  /** The shape any match must contain, stated on two positions only: an `@` at `p` with a
      non-whitespace character before it, a `.` at `q` at least two places later with only
      non-whitespace between them, and a non-whitespace character after the `.`. */
  predicate Witness(s: string, p: int, q: int) {
    && 1 <= p && p + 2 <= q && q + 1 < |s|
    && s[p] == '@' && !IsWhitespace(s[p - 1])
    && NonWhitespace(s[p + 1..q])
    && s[q] == '.' && !IsWhitespace(s[q + 1])
  }

  predicate EmailShape(s: string) {
    exists p, q | 0 <= p < q < |s| :: Witness(s, p, q)
  }

  /** The regular expression accepts exactly the texts that have the two-position shape: a
      match can always be shrunk to one character on each side, and the shape is itself a
      match of that minimal size. */
  lemma RegexIffShape(s: string)
    ensures RegexTest(s) <==> EmailShape(s)
  {
    if RegexTest(s) {
      var i, p, q, j :| 0 <= i < p < q < j <= |s| && MatchAt(s, i, p, q, j);
      assert s[p - 1] == s[i..p][p - 1 - i];
      assert s[q + 1] == s[q + 1..j][0];
      assert Witness(s, p, q);
    }
    if EmailShape(s) {
      var p, q :| 0 <= p < q < |s| && Witness(s, p, q);
      assert NonWhitespace(s[p - 1..p]);
      assert NonWhitespace(s[q + 1..q + 2]);
      assert MatchAt(s, p - 1, p, q, q + 2);
    }
  }

  /** The test is unanchored: surrounding text can never turn an accepted email away. */
  lemma RegexUnanchored(pre: string, s: string, post: string)
    requires RegexTest(s)
    ensures RegexTest(pre + s + post)
  {
    var t := pre + s + post;
    var i, p, q, j :| 0 <= i < p < q < j <= |s| && MatchAt(s, i, p, q, j);
    var d := |pre|;
    assert t[d + i..d + p] == s[i..p];
    assert t[d + p + 1..d + q] == s[p + 1..q];
    assert t[d + q + 1..d + j] == s[q + 1..j];
    assert t[d + p] == s[p] && t[d + q] == s[q];
    assert MatchAt(t, d + i, d + p, d + q, d + j);
  }

  /** Worked examples of the pattern. */
  lemma Examples()
    ensures RegexTest("a@b.c")
    ensures !RegexTest("a@b")
    ensures !RegexTest("@b.c")
    ensures RegexTest(" x a@b.c y")
  {
    var s := "a@b.c";
    assert NonWhitespace(s[0..1]) && NonWhitespace(s[2..3]) && NonWhitespace(s[4..5]);
    assert MatchAt(s, 0, 1, 3, 5);
    var u := "a@b";
    assert forall q | 0 <= q < |u| :: u[q] != '.';
    var v := "@b.c";
    assert forall p | 1 <= p < |v| :: v[p] != '@';
    RegexUnanchored(" x ", s, " y");
    assert " x " + s + " y" == " x a@b.c y";
  }

  /** One left-to-right pass deciding the pattern, from position `i` on. It keeps the start
      of the current run of non-whitespace and the first `@` of that run that has a character
      before it (`-1` while there is none); a `.` with a non-whitespace successor, two or
      more places after that `@`, completes a match. */
  function Scan(s: string, i: nat, runStart: nat, at: int): bool
    requires runStart <= i <= |s|
    decreases |s| - i
  {
    if i == |s| then false
    else if IsWhitespace(s[i]) then Scan(s, i + 1, i + 1, -1)
    else if s[i] == '.' && at != -1 && at + 2 <= i && i + 1 < |s| && !IsWhitespace(s[i + 1]) then true
    else Scan(s, i + 1, runStart, if s[i] == '@' && at == -1 && runStart + 1 <= i then i else at)
  }

  /** The email test as the form runs it: one scan of the whole text. */
  predicate EmailTest(s: string) {
    Scan(s, 0, 0, -1)
  }

  /** What the scan knows at position `i`: the current run is non-whitespace and starts
      after a whitespace character (or at the start), `at` is the run's first usable `@`,
      and no match ends its `.` before `i`. From such a position the scan finds a match
      exactly when the text has one. */
  lemma {:induction false} ScanDecides(s: string, i: nat, runStart: nat, at: int)
    requires runStart <= i <= |s|
    requires NonWhitespace(s[runStart..i])
    requires runStart == 0 || IsWhitespace(s[runStart - 1])
    requires at == -1 ==> forall k :: runStart + 1 <= k < i ==> s[k] != '@'
    requires at != -1 ==> runStart + 1 <= at < i && s[at] == '@'
    requires at != -1 ==> forall k :: runStart + 1 <= k < at ==> s[k] != '@'
    requires forall p, q :: 0 <= q < i ==> !Witness(s, p, q)
    ensures Scan(s, i, runStart, at) <==> EmailShape(s)
    decreases |s| - i
  {
    if i == |s| {
    } else if IsWhitespace(s[i]) {
      ScanDecides(s, i + 1, i + 1, -1);
    } else if s[i] == '.' && at != -1 && at + 2 <= i && i + 1 < |s| && !IsWhitespace(s[i + 1]) {
      assert s[at - 1] == s[runStart..i][at - 1 - runStart];
      assert s[at + 1..i] == s[runStart..i][at + 1 - runStart..];
      assert Witness(s, at, i);
    } else {
      forall p | Witness(s, p, i)
        ensures s[i] == '.' && at != -1 && at + 2 <= i
      {
        NoWitnessAcrossWhitespace(s, runStart, p, i);
      }
      var at' := if s[i] == '@' && at == -1 && runStart + 1 <= i then i else at;
      assert s[runStart..i + 1] == s[runStart..i] + [s[i]];
      ScanDecides(s, i + 1, runStart, at');
    }
  }

  /** The scan decides the regular expression: it accepts exactly the texts the pattern
      matches somewhere, equivalently the texts with the two-position shape. */
  lemma EmailTestIsRegex(s: string)
    ensures EmailTest(s) <==> EmailShape(s)
    ensures EmailTest(s) <==> RegexTest(s)
  {
    RegexIffShape(s);
    ScanDecides(s, 0, 0, -1);
  }

  /** A witness whose `.` lies in the current run has its `@`, and the character before it,
      inside that run as well. */
  lemma NoWitnessAcrossWhitespace(s: string, runStart: int, p: int, q: int)
    requires 0 <= runStart <= q < |s|
    requires runStart == 0 || IsWhitespace(s[runStart - 1])
    requires Witness(s, p, q)
    ensures runStart + 1 <= p
  {
  }
}
