/** Values that may be absent, and Python's `strip`. */
module Basics {

  datatype Option<+T> = None | Some(value: T)

  predicate Blank(c: char) {
    c in " \t\n\r"
  }

  function StripLeft(s: string): string {
    if s != [] && Blank(s[0]) then StripLeft(s[1..]) else s
  }

  function StripRight(s: string): string {
    if s != [] && Blank(s[|s| - 1]) then StripRight(s[..|s| - 1]) else s
  }

  function Strip(s: string): string {
    StripRight(StripLeft(s))
  }

  lemma {:induction false} StripLeftShape(s: string)
    ensures |StripLeft(s)| <= |s|
    ensures StripLeft(s) != [] ==> !Blank(StripLeft(s)[0])
  {
    if s != [] && Blank(s[0]) { StripLeftShape(s[1..]); }
  }

  lemma {:induction false} StripRightShape(s: string)
    ensures StripRight(s) <= s
    ensures StripRight(s) != [] ==> !Blank(StripRight(s)[|StripRight(s)| - 1])
  {
    if s != [] && Blank(s[|s| - 1]) { StripRightShape(s[..|s| - 1]); }
  }

  /** Stripping what is stripped changes nothing. */
  lemma StripTwice(s: string)
    ensures Strip(Strip(s)) == Strip(s)
  {
    StripLeftShape(s);
    StripRightShape(StripLeft(s));
  }

  /** No blank at either end. */
  predicate Trimmed(s: string) {
    s != "" ==> !Blank(s[0]) && !Blank(s[|s| - 1])
  }

  predicate AllBlank(s: string) {
    forall i :: 0 <= i < |s| ==> Blank(s[i])
  }

  lemma {:induction false} StripLeftRest(s: string) returns (pre: string)
    ensures s == pre + StripLeft(s) && AllBlank(pre)
  {
    if s != [] && Blank(s[0]) {
      var rest := StripLeftRest(s[1..]);
      pre := [s[0]] + rest;
      assert s == [s[0]] + s[1..];
    } else {
      pre := "";
    }
  }

  lemma {:induction false} StripRightRest(s: string) returns (post: string)
    ensures s == StripRight(s) + post && AllBlank(post)
  {
    if s != [] && Blank(s[|s| - 1]) {
      var rest := StripRightRest(s[..|s| - 1]);
      post := rest + [s[|s| - 1]];
      assert s == s[..|s| - 1] + [s[|s| - 1]];
    } else {
      post := "";
    }
  }

  /** What is stripped is blanks at the ends, all of them. */
  lemma StripExactly(s: string) returns (pre: string, post: string)
    ensures s == pre + Strip(s) + post && AllBlank(pre) && AllBlank(post) && Trimmed(Strip(s))
    ensures Trimmed(s) ==> Strip(s) == s
  {
    pre := StripLeftRest(s);
    post := StripRightRest(StripLeft(s));
    StripLeftShape(s);
    StripRightShape(StripLeft(s));
    assert s == pre + (Strip(s) + post);
    assert pre != "" ==> s[0] == pre[0];
    assert post != "" ==> s[|s| - 1] == post[|post| - 1];
  }

  function LowerChar(c: char): char {
    if 'A' <= c <= 'Z' then (c as int + 32) as char else c
  }

  function Lower(s: string): string {
    seq(|s|, i requires 0 <= i < |s| => LowerChar(s[i]))
  }

  predicate IsUpper(c: char) {
    'A' <= c <= 'Z'
  }

  lemma LowerKeeps(s: string)
    requires forall i :: 0 <= i < |s| ==> !IsUpper(s[i])
    ensures Lower(s) == s
  {
  }

  // ----- decimal numbers ---------------------------------------------------------------------

  function Digits(n: nat): string {
    if n < 10 then [(n + 48) as char] else Digits(n / 10) + [(n % 10 + 48) as char]
  }

  /** A set that is not empty has a member. */
  lemma SomeMember(s: set<int>)
    requires s != {}
    ensures exists x :: x in s
  {
    assert (forall x :: x !in s) ==> s == {};
  }
}
