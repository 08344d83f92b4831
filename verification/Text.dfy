/** String helpers shared by the readers of point-of-sale data. */
module Text {
  function ToLowerChar(c: char): char { if 'A' <= c <= 'Z' then (c as int + 32) as char else c }

  function ToLower(s: string): string {
    if s == [] then [] else [ToLowerChar(s[0])] + ToLower(s[1..])
  }

  lemma {:induction false} ToLowerIdempotent(s: string)
    ensures ToLower(ToLower(s)) == ToLower(s)
  {
    if s != [] { ToLowerIdempotent(s[1..]); }
  }

  /** Unicode white space. */
  predicate IsSpace(c: char) {
    var n := c as int;
    9 <= n <= 13 || n in {0x20, 0x85, 0xA0, 0x1680, 0x2028, 0x2029, 0x202F, 0x205F, 0x3000} || 0x2000 <= n <= 0x200A
  }

  function TrimLeft(s: string): string { if s != [] && IsSpace(s[0]) then TrimLeft(s[1..]) else s }

  function TrimRight(s: string): string { if s != [] && IsSpace(s[|s| - 1]) then TrimRight(s[..|s| - 1]) else s }

  function TrimSpace(s: string): string { TrimRight(TrimLeft(s)) }

  /** Nothing to trim at either end. */
  predicate Trimmed(s: string) { s == [] || (!IsSpace(s[0]) && !IsSpace(s[|s| - 1])) }

  lemma {:induction false} TrimRightTrims(s: string)
    ensures TrimRight(s) <= s
    ensures TrimRight(s) == [] || !IsSpace(TrimRight(s)[|TrimRight(s)| - 1])
  {
    if s != [] && IsSpace(s[|s| - 1]) { TrimRightTrims(s[..|s| - 1]); }
  }

  lemma {:induction false} TrimLeftTrims(s: string)
    ensures TrimLeft(s) == [] || !IsSpace(TrimLeft(s)[0])
  {
    if s != [] && IsSpace(s[0]) { TrimLeftTrims(s[1..]); }
  }

  lemma TrimSpaceTrims(s: string)
    ensures Trimmed(TrimSpace(s))
  {
    TrimLeftTrims(s);
    TrimRightTrims(TrimLeft(s));
  }

  lemma TrimmedIsFixed(s: string)
    requires Trimmed(s)
    ensures TrimSpace(s) == s
  {
  }

  /** Lower case differs from the text only in its ASCII capitals, each of which becomes its small letter. */
  lemma {:induction false} ToLowerIs(s: string)
    ensures |ToLower(s)| == |s|
    ensures forall i :: 0 <= i < |s| ==>
            if 'A' <= s[i] <= 'Z' then 'a' <= ToLower(s)[i] <= 'z' && ToLower(s)[i] - 'a' == s[i] - 'A'
            else ToLower(s)[i] == s[i]
  {
    if s != [] { ToLowerIs(s[1..]); }
  }

  predicate AllSpace(s: string) { forall i :: 0 <= i < |s| ==> IsSpace(s[i]) }

  lemma {:induction false} TrimLeftDrops(s: string) returns (pre: string)
    ensures s == pre + TrimLeft(s) && AllSpace(pre)
  {
    pre := [];
    if s != [] && IsSpace(s[0]) {
      pre := TrimLeftDrops(s[1..]);
      pre := [s[0]] + pre;
    }
  }

  lemma {:induction false} TrimRightDrops(s: string) returns (post: string)
    ensures s == TrimRight(s) + post && AllSpace(post)
  {
    post := [];
    if s != [] && IsSpace(s[|s| - 1]) {
      post := TrimRightDrops(s[..|s| - 1]);
      post := post + [s[|s| - 1]];
    }
  }

  /** Trimming takes away white space at both ends and nothing else. */
  lemma TrimSpaceIs(s: string) returns (pre: string, post: string)
    ensures s == pre + TrimSpace(s) + post && AllSpace(pre) && AllSpace(post) && Trimmed(TrimSpace(s))
  {
    TrimSpaceTrims(s);
    pre := TrimLeftDrops(s);
    post := TrimRightDrops(TrimLeft(s));
  }
}
