// What several of the other modules use.
module Basics {

  datatype Option<T> = None | Some(value: T)

  function Max(a: nat, b: nat): nat {
    if a < b then b else a
  }

  function Abs(x: real): real {
    if x < 0.0 then -x else x
  }

  lemma MaxIs(a: nat, b: nat)
    ensures Max(a, b) == if a < b then b else a
  {
  }

  function Reversed<T>(s: seq<T>): (r: seq<T>)
    ensures |r| == |s| && forall i :: 0 <= i < |s| ==> r[i] == s[|s| - 1 - i]
  {
    if s == [] then [] else [s[|s| - 1]] + Reversed(s[..|s| - 1])
  }

  lemma {:induction false} ReversedTwice<T>(s: seq<T>)
    ensures Reversed(Reversed(s)) == s
  {
  }

  predicate NoneTwice<T(==)>(s: seq<T>) {
    s == [] || (s[|s| - 1] !in s[..|s| - 1] && NoneTwice(s[..|s| - 1]))
  }

  lemma {:induction false} NoneTwiceCons<T>(x: T, s: seq<T>)
    ensures NoneTwice([x] + s) <==> x !in s && NoneTwice(s)
  {
    if s != [] {
      var last := |s| - 1;
      assert ([x] + s)[..last + 1] == [x] + s[..last] && s == s[..last] + [s[last]];
      NoneTwiceCons(x, s[..last]);
    }
  }

  lemma {:induction false} NoneTwiceRest<T>(s: seq<T>)
    requires NoneTwice(s) && s != []
    ensures s[0] !in s[1..] && NoneTwice(s[1..])
  {
    assert s == [s[0]] + s[1..];
    NoneTwiceCons(s[0], s[1..]);
  }

  // ---------------------------------------------------------------------------------------------
  // Reading a list of rows from its end (cache/rwMap.go)

  // The last n rows, newest first.
  function LastN<T>(rows: seq<T>, n: nat): seq<T> {
    if rows == [] || n == 0 then [] else [rows[|rows| - 1]] + LastN(rows[..|rows| - 1], n - 1)
  }

  lemma {:induction false} NoneLeft<T>(rows: seq<T>, n: nat)
    requires rows == [] || n == 0
    ensures LastN(rows, n) == []
  {
  }

  lemma {:induction false} LastNIsTail<T>(rows: seq<T>, n: nat)
    requires n <= |rows|
    ensures LastN(rows, n) == Reversed(rows[|rows| - n..])
  {
    if n > 0 {
      LastNIsTail(rows[..|rows| - 1], n - 1);
      assert rows[|rows| - n..][..n - 1] == rows[..|rows| - 1][|rows| - n..];
    }
  }

  lemma {:induction false} LastNCapped<T>(rows: seq<T>, n: nat)
    ensures n >= |rows| ==> LastN(rows, n) == LastN(rows, |rows|)
  {
    if rows != [] && n > 0 { LastNCapped(rows[..|rows| - 1], n - 1); }
  }

  lemma {:induction false} LastNAt<T>(rows: seq<T>, n: nat)
    ensures |LastN(rows, n)| == if |rows| < n then |rows| else n
    ensures forall i :: 0 <= i < |LastN(rows, n)| ==> LastN(rows, n)[i] == rows[|rows| - 1 - i]
  {
    if rows != [] && n > 0 { LastNAt(rows[..|rows| - 1], n - 1); }
  }

  method LookupLastN<T>(rows: seq<T>, lastN: nat) returns (retVal: seq<T>)
    ensures retVal == LastN(rows, lastN)
    ensures |retVal| == (if |rows| < lastN then |rows| else lastN) && forall i :: 0 <= i < |retVal| ==> retVal[i] == rows[|rows| - 1 - i]
  {
    hide LastN;
    LastNAt(rows, lastN);
    var n := if |rows| < lastN then |rows| else lastN;
    retVal := Reversed(rows[|rows| - n..]);
    LastNIsTail(rows, n);
    LastNCapped(rows, lastN);
  }
}
