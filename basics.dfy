/** Values and string operations shared by the services: JavaScript's `includes`,
    ASCII lower-casing, ordered sets of callbacks and the delivery log. */
module Basics {

  datatype Option<T> = None | Some(value: T)

  /** A callback handed to a service. It is known only by its identity;
      `throws` says whether invoking it raises an exception. */
  datatype Callback = Callback(id: nat, throws: bool)

  /** One invocation of a callback with an argument, as recorded in a log. */
  datatype Delivery<V> = Delivery(callback: Callback, value: V)

  /** `t` occurs in `s` starting at position `i`. */
  predicate OccursAt(s: string, t: string, i: nat) {
    i + |t| <= |s| && s[i..i + |t|] == t
  }

  /** `s.includes(t)` */
  predicate Contains(s: string, t: string) {
    exists i :: 0 <= i <= |s| - |t| && OccursAt(s, t, i)
  }

  /** A string contains every infix of every string it contains. */
  lemma ContainsInfix(s: string, pre: string, t: string, post: string)
    requires Contains(s, pre + t + post)
    ensures Contains(s, t)
  {
    var u := pre + t + post;
    var i :| 0 <= i <= |s| - |u| && OccursAt(s, u, i);
    var k := i + |pre|;
    assert s[i..i + |u|] == u;
    assert forall n :: 0 <= n < |t| ==> s[k + n] == s[i..i + |u|][|pre| + n] == u[|pre| + n] == t[n];
    assert s[k..k + |t|] == t;
    assert OccursAt(s, t, k);
  }

  /** A string cannot contain a string with a character it lacks. */
  lemma NotContainsMissingChar(s: string, t: string, c: char)
    requires c in t && c !in s
    ensures !Contains(s, t)
  {
    var k :| 0 <= k < |t| && t[k] == c;
    forall i | 0 <= i <= |s| - |t| ensures !OccursAt(s, t, i) {
      assert s[i..i + |t|][k] == s[i + k] != c;
    }
  }

  /** A string contains itself. */
  lemma ContainsSelf(s: string)
    ensures Contains(s, s)
  {
    assert OccursAt(s, s, 0);
  }

  function LowerChar(c: char): char {
    if 'A' <= c <= 'Z' then (c as int + 32) as char else c
  }

  predicate IsAsciiUpper(c: char) {
    'A' <= c <= 'Z'
  }

  /** ASCII lower-casing: no upper-case ASCII letter is left, each one becomes the letter
      32 code points above it, and every other character is kept. */
  function LowerAscii(s: string): (r: string)
    ensures |r| == |s|
    ensures forall k :: 0 <= k < |r| ==> !IsAsciiUpper(r[k])
    ensures forall k :: 0 <= k < |s| ==> (r[k] == s[k] <==> !IsAsciiUpper(s[k]))
    ensures forall k :: 0 <= k < |s| && IsAsciiUpper(s[k]) ==> r[k] as int == s[k] as int + 32
  {
    seq(|s|, k requires 0 <= k < |s| => LowerChar(s[k]))
  }

  predicate Distinct<T(==)>(s: seq<T>) {
    forall i, j :: 0 <= i < j < |s| ==> s[i] != s[j]
  }

  /** The position of the first `x` in `s`, or `|s|` when there is none. */
  function IndexOf<T(==)>(s: seq<T>, x: T): (k: nat)
    ensures k <= |s|
    ensures k < |s| <==> x in s
    ensures k < |s| ==> s[k] == x
    ensures forall j :: 0 <= j < k ==> s[j] != x
  {
    if s == [] then 0
    else if s[0] == x then 0
    else 1 + IndexOf(s[1..], x)
  }

  /** `s` without its element at `k`; the others keep their order. */
  function RemoveAt<T>(s: seq<T>, k: nat): (r: seq<T>)
    requires k < |s|
    ensures |r| == |s| - 1
    ensures forall j :: 0 <= j < k ==> r[j] == s[j]
    ensures forall j :: k <= j < |r| ==> r[j] == s[j + 1]
  {
    s[..k] + s[k + 1..]
  }

  /** `Set.prototype.add` on an insertion-ordered set. */
  function SetAdd<T(==, !new)>(s: seq<T>, x: T): (r: seq<T>)
    ensures Distinct(s) ==> Distinct(r)
    ensures x in r && forall y :: y in r <==> y in s || y == x
    ensures x in s ==> r == s
    ensures x !in s ==> r == s + [x]
  {
    if x in s then s else s + [x]
  }

  /** `Set.prototype.delete` on an insertion-ordered set. */
  function SetDelete<T(==, !new)>(s: seq<T>, x: T): (r: seq<T>)
    ensures Distinct(s) ==> Distinct(r) && x !in r
    ensures Distinct(s) ==> forall y :: y in r <==> y in s && y != x
    ensures x !in s ==> r == s
    ensures x in s ==> exists k :: 0 <= k < |s| && s[k] == x && r == s[..k] + s[k + 1..]
  {
    var k := IndexOf(s, x);
    if k < |s| then
      var r := RemoveAt(s, k);
      assert Distinct(s) ==> forall j :: 0 <= j < |r| ==> r[j] != x by {
        if Distinct(s) {
          forall j | 0 <= j < |r| ensures r[j] != x {
            if j < k { assert r[j] == s[j]; } else { assert r[j] == s[j + 1]; }
          }
        }
      }
      assert forall y :: y in r ==> y in s by {
        forall y | y in r ensures y in s {
          var j :| 0 <= j < |r| && r[j] == y;
          if j < k { assert s[j] == y; } else { assert s[j + 1] == y; }
        }
      }
      assert forall y :: y in s && y != x ==> y in r by {
        forall y | y in s && y != x ensures y in r {
          var j :| 0 <= j < |s| && s[j] == y;
          if j < k { assert r[j] == y; } else { assert j != k; assert r[j - 1] == y; }
        }
      }
      r
    else
      s
  }

  /** Lower-casing twice is lower-casing once. */
  lemma LowerAsciiIdempotent(s: string)
    ensures LowerAscii(LowerAscii(s)) == LowerAscii(s)
  {
  }
}
