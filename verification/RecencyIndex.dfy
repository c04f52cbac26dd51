// The transaction indexes (insertSorted, lookupLastN and lookupLastNAtTime in cache/rwMap.go, and
// the two orders of AddPoolEvent in cache/transactors.go): rows kept in ascending order, and read
// from the end.
module RecencyIndex {
  import opened Basics

  // A transaction. Names and addresses are compared in their own order; integers stand for them.
  datatype PoolTxEvent = PoolTxEvent(
    txTime: int,
    callIndex: int,
    changeType: int,
    positionType: int,
    base: int,
    quote: int,
    bidTick: int,
    askTick: int,
    txHash: int)

  // The order of a user's transactions: `i` before `j` when it is the later one.
  predicate UserLess(i: PoolTxEvent, j: PoolTxEvent) {
    if i.txTime != j.txTime then i.txTime > j.txTime
    else if i.callIndex != j.callIndex then i.callIndex > j.callIndex
    else if i.changeType != j.changeType then i.changeType > j.changeType
    else if i.positionType != j.positionType then i.positionType > j.positionType
    else if i.base != j.base then i.base > j.base
    else if i.quote != j.quote then i.quote > j.quote
    else if i.bidTick != j.bidTick then i.bidTick > j.bidTick
    else if i.askTick != j.askTick then i.bidTick > j.bidTick
    else false
  }

  predicate PoolLess(i: PoolTxEvent, j: PoolTxEvent) {
    if i.txTime != j.txTime then i.txTime > j.txTime
    else if i.callIndex != j.callIndex then i.callIndex > j.callIndex
    else if i.changeType != j.changeType then i.changeType > j.changeType
    else if i.positionType != j.positionType then i.positionType > j.positionType
    else if i.bidTick != j.bidTick then i.bidTick > j.bidTick
    else if i.askTick != j.askTick then i.bidTick > j.bidTick
    else false
  }

  // ---------------------------------------------------------------------------------------------
  // Keys: what the orders really compare

  type Key = seq<int>

  // Lexicographically.
  predicate Lt(a: Key, b: Key) {
    b != [] && (a == [] || a[0] < b[0] || (a[0] == b[0] && Lt(a[1..], b[1..])))
  }

  function KeyOf(order: Order, e: PoolTxEvent): (k: Key)
    ensures |k| == 7 && k[0] == e.txTime
  {
    match order
    case ByUser => [e.txTime, e.callIndex, e.changeType, e.positionType, e.base, e.quote, e.bidTick]
    case ByPool => [e.txTime, e.callIndex, e.changeType, e.positionType, 0, 0, e.bidTick]
  }

  // A user's transactions are filed in one order, a pool's in the other.
  datatype Order = ByUser | ByPool

  predicate Less(order: Order, i: PoolTxEvent, j: PoolTxEvent) {
    match order
    case ByUser => UserLess(i, j)
    case ByPool => PoolLess(i, j)
  }

  // Both orders compare keys, the higher one first. The ask tick takes no part: where it alone
  // differs, the bid ticks are compared again.
  lemma LessComparesKeys(order: Order, i: PoolTxEvent, j: PoolTxEvent)
    ensures Less(order, i, j) <==> Lt(KeyOf(order, j), KeyOf(order, i))
  {
    var a, b := KeyOf(order, j), KeyOf(order, i);
    LtUnfolds(a, b);
  }

  lemma {:induction false} LtUnfolds(a: Key, b: Key)
    requires |a| == 7 && |b| == 7
    ensures Lt(a, b) <==>
      if a[0] != b[0] then a[0] < b[0]
      else if a[1] != b[1] then a[1] < b[1]
      else if a[2] != b[2] then a[2] < b[2]
      else if a[3] != b[3] then a[3] < b[3]
      else if a[4] != b[4] then a[4] < b[4]
      else if a[5] != b[5] then a[5] < b[5]
      else a[6] < b[6]
  {
    var a1, b1 := a[1..], b[1..];
    var a2, b2 := a1[1..], b1[1..];
    var a3, b3 := a2[1..], b2[1..];
    var a4, b4 := a3[1..], b3[1..];
    var a5, b5 := a4[1..], b4[1..];
    var a6, b6 := a5[1..], b5[1..];
    assert Lt(a6, b6) <==> a[6] < b[6] by {
      assert a6 == [a[6]] && b6 == [b[6]];
    }
    assert Lt(a5, b5) <==> a[5] < b[5] || (a[5] == b[5] && Lt(a6, b6));
    assert Lt(a4, b4) <==> a[4] < b[4] || (a[4] == b[4] && Lt(a5, b5));
    assert Lt(a3, b3) <==> a[3] < b[3] || (a[3] == b[3] && Lt(a4, b4));
    assert Lt(a2, b2) <==> a[2] < b[2] || (a[2] == b[2] && Lt(a3, b3));
    assert Lt(a1, b1) <==> a[1] < b[1] || (a[1] == b[1] && Lt(a2, b2));
  }

  lemma {:induction false} LtTransitive(a: Key, b: Key, c: Key)
    requires Lt(a, b) && Lt(b, c)
    ensures Lt(a, c)
  {
    if a != [] && a[0] == b[0] == c[0] { LtTransitive(a[1..], b[1..], c[1..]); }
  }

  lemma {:induction false} LtTotal(a: Key, b: Key)
    ensures !(Lt(a, b) && Lt(b, a))
    ensures a != b <==> Lt(a, b) || Lt(b, a)
  {
    if a != [] && b != [] {
      LtTotal(a[1..], b[1..]);
      assert a == [a[0]] + a[1..] && b == [b[0]] + b[1..];
    }
  }

  // So each is a strict weak order, under which two transactions are on a par exactly when their
  // keys are the same.
  lemma StrictWeakOrder(order: Order, i: PoolTxEvent, j: PoolTxEvent, k: PoolTxEvent)
    ensures !Less(order, i, i)
    ensures Less(order, i, j) && Less(order, j, k) ==> Less(order, i, k)
    ensures !Less(order, i, j) && !Less(order, j, i) <==> KeyOf(order, i) == KeyOf(order, j)
  {
    hide KeyOf, Less, Lt;
    LessComparesKeys(order, i, i);
    LessComparesKeys(order, i, j);
    LessComparesKeys(order, j, i);
    LessComparesKeys(order, j, k);
    LessComparesKeys(order, i, k);
    LtTotal(KeyOf(order, i), KeyOf(order, i));
    LtTotal(KeyOf(order, i), KeyOf(order, j));
    if Less(order, i, j) && Less(order, j, k) {
      LtTransitive(KeyOf(order, k), KeyOf(order, j), KeyOf(order, i));
    }
  }

  // ---------------------------------------------------------------------------------------------
  // Sorted rows

  function Keys(order: Order, rows: seq<PoolTxEvent>): (ks: seq<Key>)
    ensures |ks| == |rows|
  {
    if rows == [] then [] else Keys(order, rows[..|rows| - 1]) + [KeyOf(order, rows[|rows| - 1])]
  }

  lemma {:induction false} KeysAt(order: Order, rows: seq<PoolTxEvent>, i: nat)
    requires i < |rows|
    ensures Keys(order, rows)[i] == KeyOf(order, rows[i])
  {
    if i < |rows| - 1 { KeysAt(order, rows[..|rows| - 1], i); }
  }

  lemma {:induction false} KeysConcat(order: Order, a: seq<PoolTxEvent>, b: seq<PoolTxEvent>)
    ensures Keys(order, a + b) == Keys(order, a) + Keys(order, b)
  {
    if b == [] {
      assert a + b == a;
    } else {
      assert (a + b)[..|a + b| - 1] == a + b[..|b| - 1];
      KeysConcat(order, a, b[..|b| - 1]);
    }
  }

  // No key is followed by a lower one.
  predicate Ascending(ks: seq<Key>) {
    |ks| <= 1 || (!Lt(ks[|ks| - 1], ks[|ks| - 2]) && Ascending(ks[..|ks| - 1]))
  }

  lemma {:induction false} LastIsHighest(ks: seq<Key>, i: nat)
    requires Ascending(ks) && i < |ks|
    ensures !Lt(ks[|ks| - 1], ks[i])
  {
    var last := ks[|ks| - 1];
    if i == |ks| - 1 {
      LtTotal(last, last);
    } else {
      var next := ks[|ks| - 2];
      assert ks[..|ks| - 1][|ks| - 2] == next;
      LastIsHighest(ks[..|ks| - 1], i);
      NotLtTransitive(last, next, ks[i]);
    }
  }

  lemma {:induction false} NotLtTransitive(a: Key, b: Key, c: Key)
    requires !Lt(a, b) && !Lt(b, c)
    ensures !Lt(a, c)
  {
    LtTotal(a, b);
    LtTotal(b, c);
    LtTotal(a, c);
    if Lt(b, a) && Lt(c, b) { LtTransitive(c, b, a); }
  }

  // Ascending sequences of the same keys are the same.
  lemma {:induction false} AscendingIsUnique(a: seq<Key>, b: seq<Key>)
    requires Ascending(a) && Ascending(b) && multiset(a) == multiset(b)
    ensures a == b
    decreases |a|
  {
    hide Lt, Ascending;
    SameSize(a, b);
    if a != [] {
      SameHighest(a, b);
      AscendingInit(a);
      AscendingInit(b);
      SameWithoutLast(a, b);
      AscendingIsUnique(a[..|a| - 1], b[..|b| - 1]);
      assert a == a[..|a| - 1] + [a[|a| - 1]] && b == b[..|b| - 1] + [b[|b| - 1]];
    }
  }

  lemma SameSize(a: seq<Key>, b: seq<Key>)
    requires multiset(a) == multiset(b)
    ensures |a| == |b|
  {
    assert |a| == |multiset(a)| == |multiset(b)| == |b|;
  }

  lemma SameWithoutLast(a: seq<Key>, b: seq<Key>)
    requires multiset(a) == multiset(b) && a != [] && b != [] && a[|a| - 1] == b[|b| - 1]
    ensures multiset(a[..|a| - 1]) == multiset(b[..|b| - 1])
  {
    WithoutLast(a);
    WithoutLast(b);
  }

  lemma {:induction false} AscendingInit(ks: seq<Key>)
    requires Ascending(ks) && ks != []
    ensures Ascending(ks[..|ks| - 1])
  {
  }

  lemma WithoutLast<T>(a: seq<T>)
    requires a != []
    ensures multiset(a[..|a| - 1]) == multiset(a) - multiset{a[|a| - 1]}
  {
    assert a == a[..|a| - 1] + [a[|a| - 1]];
  }

  lemma {:induction false} SameHighest(a: seq<Key>, b: seq<Key>)
    requires Ascending(a) && Ascending(b) && multiset(a) == multiset(b) && a != [] && b != []
    ensures a[|a| - 1] == b[|b| - 1]
  {
    hide Ascending, Lt;
    var x, y := a[|a| - 1], b[|b| - 1];
    assert x in multiset(b) && y in multiset(a);
    var i :| 0 <= i < |b| && b[i] == x;
    var j :| 0 <= j < |a| && a[j] == y;
    LastIsHighest(b, i);
    LastIsHighest(a, j);
    LtTotal(x, y);
  }

  // ---------------------------------------------------------------------------------------------
  // Insertion

  // Looking from the end, the new row goes behind the first one it is later than.
  function Inserted(order: Order, rows: seq<PoolTxEvent>, val: PoolTxEvent): seq<PoolTxEvent> {
    if rows == [] then [val]
    else if Less(order, val, rows[|rows| - 1]) then rows + [val]
    else Inserted(order, rows[..|rows| - 1], val) + [rows[|rows| - 1]]
  }

  function InsertedKey(ks: seq<Key>, k: Key): (next: seq<Key>)
    ensures next != []
  {
    if ks == [] then [k]
    else if Lt(ks[|ks| - 1], k) then ks + [k]
    else InsertedKey(ks[..|ks| - 1], k) + [ks[|ks| - 1]]
  }

  lemma {:induction false} KeysInserted(order: Order, rows: seq<PoolTxEvent>, val: PoolTxEvent)
    ensures Keys(order, Inserted(order, rows, val)) == InsertedKey(Keys(order, rows), KeyOf(order, val))
  {
    hide KeyOf, Less, Lt;
    if rows == [] {
      assert [val][..0] == [];
    } else {
      var init, last := rows[..|rows| - 1], rows[|rows| - 1];
      LessComparesKeys(order, val, last);
      assert Keys(order, rows)[..|rows| - 1] == Keys(order, init);
      if Less(order, val, last) {
        KeysAppend(order, rows, val);
      } else {
        KeysInserted(order, init, val);
        KeysAppend(order, Inserted(order, init, val), last);
      }
    }
  }

  lemma {:induction false} KeysAppend(order: Order, rows: seq<PoolTxEvent>, x: PoolTxEvent)
    ensures Keys(order, rows + [x]) == Keys(order, rows) + [KeyOf(order, x)]
  {
    assert (rows + [x])[..|rows|] == rows;
  }

  lemma {:induction false} AscendingAppend(ks: seq<Key>, k: Key)
    requires Ascending(ks) && (ks != [] ==> !Lt(k, ks[|ks| - 1]))
    ensures Ascending(ks + [k])
  {
    assert (ks + [k])[..|ks|] == ks;
  }

  lemma {:induction false} InsertedKeyAscends(ks: seq<Key>, k: Key)
    requires Ascending(ks)
    ensures Ascending(InsertedKey(ks, k))
    ensures var next := InsertedKey(ks, k); next[|next| - 1] == k || (ks != [] && next[|next| - 1] == ks[|ks| - 1])
  {
    hide Lt;
    if ks != [] {
      var init, last := ks[..|ks| - 1], ks[|ks| - 1];
      LtTotal(last, k);
      if Lt(last, k) {
        AscendingAppend(ks, k);
      } else {
        InsertedKeyAscends(init, k);
        assert init != [] ==> init[|init| - 1] == ks[|ks| - 2];
        AscendingAppend(InsertedKey(init, k), last);
      }
    }
  }

  lemma {:induction false} InsertedMultiset(order: Order, rows: seq<PoolTxEvent>, val: PoolTxEvent)
    ensures multiset(Inserted(order, rows, val)) == multiset(rows) + multiset{val}
  {
    hide Less;
    if rows != [] {
      var init, last := rows[..|rows| - 1], rows[|rows| - 1];
      InsertedMultiset(order, init, val);
      assert rows == init + [last];
    }
  }

  lemma {:induction false} InsertedKeyMultiset(ks: seq<Key>, k: Key)
    ensures multiset(InsertedKey(ks, k)) == multiset(ks) + multiset{k}
  {
    hide Lt;
    if ks != [] {
      var init, last := ks[..|ks| - 1], ks[|ks| - 1];
      InsertedKeyMultiset(init, k);
      assert ks == init + [last];
    }
  }

  // Every run of insertions.
  function InsertAll(order: Order, es: seq<PoolTxEvent>): seq<PoolTxEvent> {
    if es == [] then [] else Inserted(order, InsertAll(order, es[..|es| - 1]), es[|es| - 1])
  }

  // Whatever order transactions come in, their index is an ascending permutation of them.
  lemma {:induction false} IndexIsSorted(order: Order, es: seq<PoolTxEvent>)
    ensures multiset(InsertAll(order, es)) == multiset(es)
    ensures Ascending(Keys(order, InsertAll(order, es)))
    ensures multiset(Keys(order, InsertAll(order, es))) == multiset(Keys(order, es))
  {
    hide Less, Lt, KeyOf, Inserted, InsertedKey, Ascending;
    if es == [] {
      NothingAscends();
    } else {
      var init, last := es[..|es| - 1], es[|es| - 1];
      assert es == init + [last];
      IndexIsSorted(order, init);
      var rows := InsertAll(order, init);
      InsertedMultiset(order, rows, last);
      KeysInserted(order, rows, last);
      InsertedKeyAscends(Keys(order, rows), KeyOf(order, last));
      InsertedKeyMultiset(Keys(order, rows), KeyOf(order, last));
    }
  }

  lemma NothingAscends()
    ensures Ascending([])
  {
  }

  lemma {:induction false} KeysPermute(order: Order, a: seq<PoolTxEvent>, b: seq<PoolTxEvent>)
    requires multiset(a) == multiset(b)
    ensures multiset(Keys(order, a)) == multiset(Keys(order, b))
    decreases |a|
  {
    hide KeyOf, Keys;
    assert |a| == |multiset(a)| == |multiset(b)| == |b|;
    if a != [] {
      var init, x := a[..|a| - 1], a[|a| - 1];
      assert a == init + [x];
      WithoutLast(a);
      var i := Found(b, x);
      KeysPermute(order, init, b[..i] + b[i + 1..]);
      KeysAppend(order, init, x);
      KeysAround(order, b, i);
    } else {
      assert b == [];
    }
  }

  lemma Found(b: seq<PoolTxEvent>, x: PoolTxEvent) returns (i: nat)
    requires x in multiset(b)
    ensures i < |b| && b[i] == x
    ensures multiset(b[..i] + b[i + 1..]) == multiset(b) - multiset{x}
  {
    i :| 0 <= i < |b| && b[i] == x;
    assert b == b[..i] + [x] + b[i + 1..];
  }

  lemma {:induction false} KeysAround(order: Order, b: seq<PoolTxEvent>, i: nat)
    requires i < |b|
    ensures multiset(Keys(order, b)) == multiset(Keys(order, b[..i] + b[i + 1..])) + multiset{KeyOf(order, b[i])}
  {
    hide KeyOf, Keys;
    var p, q := b[..i], b[i + 1..];
    assert b == p + [b[i]] + q;
    KeysConcat(order, p, q);
    KeysConcat(order, p + [b[i]], q);
    KeysAppend(order, p, b[i]);
  }

  // The keys of an index do not depend on the order of insertion.
  lemma {:induction false} KeysIgnoreInsertionOrder(order: Order, es: seq<PoolTxEvent>, fs: seq<PoolTxEvent>)
    requires multiset(es) == multiset(fs)
    ensures Keys(order, InsertAll(order, es)) == Keys(order, InsertAll(order, fs))
  {
    IndexIsSorted(order, es);
    IndexIsSorted(order, fs);
    KeysPermute(order, es, fs);
    AscendingIsUnique(Keys(order, InsertAll(order, es)), Keys(order, InsertAll(order, fs)));
  }

  // The rows of one key.
  function WithKey(order: Order, rows: seq<PoolTxEvent>, k: Key): seq<PoolTxEvent> {
    if rows == [] then []
    else
      var rest, last := WithKey(order, rows[..|rows| - 1], k), rows[|rows| - 1];
      if KeyOf(order, last) == k then rest + [last] else rest
  }

  lemma {:induction false} WithKeyAppend(order: Order, rows: seq<PoolTxEvent>, x: PoolTxEvent, k: Key)
    ensures WithKey(order, rows + [x], k) == WithKey(order, rows, k) + if KeyOf(order, x) == k then [x] else []
  {
    assert (rows + [x])[..|rows|] == rows;
  }

  lemma {:induction false} NoneAbove(order: Order, rows: seq<PoolTxEvent>, k: Key)
    requires Ascending(Keys(order, rows)) && (rows != [] ==> Lt(KeyOf(order, rows[|rows| - 1]), k))
    ensures WithKey(order, rows, k) == []
  {
    hide KeyOf, Lt;
    if rows != [] {
      var init, last := rows[..|rows| - 1], rows[|rows| - 1];
      LtTotal(KeyOf(order, last), k);
      if init != [] {
        KeysAt(order, rows, |rows| - 2);
        LtTotal(KeyOf(order, last), KeyOf(order, init[|init| - 1]));
        if Lt(KeyOf(order, init[|init| - 1]), KeyOf(order, last)) {
          LtTransitive(KeyOf(order, init[|init| - 1]), KeyOf(order, last), k);
        }
      }
      NoneAbove(order, init, k);
    }
  }

  // A row goes before those of its key, and leaves the others in their order.
  lemma {:induction false} WithKeyInserted(order: Order, rows: seq<PoolTxEvent>, val: PoolTxEvent, k: Key)
    requires Ascending(Keys(order, rows))
    ensures WithKey(order, Inserted(order, rows, val), k) ==
      (if KeyOf(order, val) == k then [val] else []) + WithKey(order, rows, k)
  {
    hide KeyOf, Less, Lt, WithKey, Keys, Ascending;
    var v := if KeyOf(order, val) == k then [val] else [];
    if rows == [] {
      WithKeyAppend(order, [], val, k);
      NoneWithKey(order, k);
      assert Inserted(order, rows, val) == [] + [val];
    } else {
      var init, last := rows[..|rows| - 1], rows[|rows| - 1];
      assert rows == init + [last];
      LessComparesKeys(order, val, last);
      if Less(order, val, last) {
        WithKeyAppend(order, rows, val, k);
        if KeyOf(order, val) == k { NoneAbove(order, rows, k); }
        assert WithKey(order, rows, k) + v == v + WithKey(order, rows, k);
      } else {
        InitAscends(order, init, last);
        WithKeyInserted(order, init, val, k);
        WithKeyAppend(order, Inserted(order, init, val), last, k);
        WithKeyAppend(order, init, last, k);
        assert (v + WithKey(order, init, k)) + (if KeyOf(order, last) == k then [last] else [])
          == v + (WithKey(order, init, k) + if KeyOf(order, last) == k then [last] else []);
      }
    }
  }

  lemma {:induction false} NoneWithKey(order: Order, k: Key)
    ensures WithKey(order, [], k) == []
  {
  }

  lemma {:induction false} InitAscends(order: Order, init: seq<PoolTxEvent>, last: PoolTxEvent)
    requires Ascending(Keys(order, init + [last]))
    ensures Ascending(Keys(order, init))
  {
    hide KeyOf, Lt, Ascending;
    KeysAppend(order, init, last);
    AscendingInit(Keys(order, init + [last]));
    assert Keys(order, init + [last])[..|init|] == Keys(order, init);
  }

  // Within a key, an index holds the later comer first.
  lemma {:induction false} LaterComerFirst(order: Order, es: seq<PoolTxEvent>, k: Key)
    ensures WithKey(order, InsertAll(order, es), k) == Reversed(WithKey(order, es, k))
  {
    hide KeyOf, Ascending, Inserted;
    if es != [] {
      var init, last := es[..|es| - 1], es[|es| - 1];
      LaterComerFirst(order, init, k);
      IndexIsSorted(order, init);
      WithKeyInserted(order, InsertAll(order, init), last, k);
      var rest, x := WithKey(order, init, k), if KeyOf(order, last) == k then [last] else [];
      assert (rest + x)[..|rest|] == rest && [] + Reversed(rest) == Reversed(rest) && rest + [] == rest;
    }
  }

  // The transactions of each key came in the same order in both runs.
  ghost predicate SameOrderWithin(order: Order, es: seq<PoolTxEvent>, fs: seq<PoolTxEvent>) {
    forall k :: WithKey(order, es, k) == WithKey(order, fs, k)
  }

  lemma {:induction false} SameRows(order: Order, a: seq<PoolTxEvent>, b: seq<PoolTxEvent>)
    requires Keys(order, a) == Keys(order, b) && SameOrderWithin(order, a, b)
    ensures a == b
  {
    hide KeyOf, Keys, WithKey;
    assert |Keys(order, a)| == |a| && |Keys(order, b)| == |b|;
    if a != [] {
      var x, y, a', b' := a[|a| - 1], b[|b| - 1], a[..|a| - 1], b[..|b| - 1];
      assert a == a' + [x] && b == b' + [y];
      KeysAppend(order, a', x);
      KeysAppend(order, b', y);
      assert KeyOf(order, x) == KeyOf(order, y) by {
        assert Keys(order, a)[|a| - 1] == Keys(order, b)[|a| - 1];
      }
      assert Keys(order, a') == Keys(order, a)[..|a| - 1] && Keys(order, b') == Keys(order, b)[..|a| - 1];
      forall k ensures WithKey(order, a', k) == WithKey(order, b', k) && (k == KeyOf(order, x) ==> x == y) {
        WithKeyAppend(order, a', x, k);
        WithKeyAppend(order, b', y, k);
        SameEnds(WithKey(order, a', k), x, WithKey(order, b', k), y, k == KeyOf(order, x));
      }
      SameRows(order, a', b');
      assert x == y by {
        assert WithKey(order, a', KeyOf(order, x)) == WithKey(order, b', KeyOf(order, x));
      }
    }
  }

  lemma SameEnds(a: seq<PoolTxEvent>, x: PoolTxEvent, b: seq<PoolTxEvent>, y: PoolTxEvent, ends: bool)
    requires a + (if ends then [x] else []) == b + (if ends then [y] else [])
    ensures a == b && (ends ==> x == y)
  {
    if ends {
      assert (a + [x])[..|a|] == a && (b + [y])[..|b|] == b;
      assert (a + [x])[|a|] == x && (b + [y])[|b|] == y;
    } else {
      assert a + [] == a && b + [] == b;
    }
  }

  lemma {:induction false} SameRowsExactly(order: Order, es: seq<PoolTxEvent>, fs: seq<PoolTxEvent>)
    ensures SameOrderWithin(order, InsertAll(order, es), InsertAll(order, fs)) <==> SameOrderWithin(order, es, fs)
  {
    hide InsertAll, WithKey, Reversed;
    var a, b := InsertAll(order, es), InsertAll(order, fs);
    forall k ensures WithKey(order, a, k) == WithKey(order, b, k) <==> WithKey(order, es, k) == WithKey(order, fs, k) {
      LaterComerFirst(order, es, k);
      LaterComerFirst(order, fs, k);
      ReversedTwice(WithKey(order, es, k));
      ReversedTwice(WithKey(order, fs, k));
    }
  }

  // Two runs of the same transactions end in the same index exactly when the transactions of each
  // key came in the same order in both: within a key, the later comer goes first.
  lemma {:induction false} RowsKeepInsertionOrderExactly(order: Order, es: seq<PoolTxEvent>, fs: seq<PoolTxEvent>)
    requires multiset(es) == multiset(fs)
    ensures InsertAll(order, es) == InsertAll(order, fs) <==> SameOrderWithin(order, es, fs)
  {
    hide InsertAll, SameOrderWithin;
    SameRowsExactly(order, es, fs);
    if InsertAll(order, es) == InsertAll(order, fs) {
      SameOrderAsItself(order, InsertAll(order, es));
    } else if SameOrderWithin(order, es, fs) {
      KeysIgnoreInsertionOrder(order, es, fs);
      SameRows(order, InsertAll(order, es), InsertAll(order, fs));
    }
  }

  lemma SameOrderAsItself(order: Order, es: seq<PoolTxEvent>)
    ensures SameOrderWithin(order, es, es)
  {
  }

  // ---------------------------------------------------------------------------------------------
  // Reading from the end

  predicate ByTime(rows: seq<PoolTxEvent>) {
    |rows| <= 1 || (rows[|rows| - 2].txTime <= rows[|rows| - 1].txTime && ByTime(rows[..|rows| - 1]))
  }

  lemma {:induction false} IndexIsByTime(order: Order, rows: seq<PoolTxEvent>)
    requires Ascending(Keys(order, rows))
    ensures ByTime(rows)
  {
    if |rows| > 1 {
      var init := rows[..|rows| - 1];
      assert Keys(order, rows)[..|rows| - 1] == Keys(order, init);
      KeysAt(order, rows, |rows| - 1);
      KeysAt(order, rows, |rows| - 2);
      IndexIsByTime(order, init);
    }
  }

  // The rows with afterTime <= time < beforeTime.
  function InWindow(rows: seq<PoolTxEvent>, afterTime: int, beforeTime: int): seq<PoolTxEvent> {
    if rows == [] then []
    else
      var rest, x := InWindow(rows[..|rows| - 1], afterTime, beforeTime), rows[|rows| - 1];
      if afterTime <= x.txTime < beforeTime then rest + [x] else rest
  }

  lemma {:induction false} NoneBeforeWindow(rows: seq<PoolTxEvent>, afterTime: int, beforeTime: int)
    requires ByTime(rows) && (rows != [] ==> rows[|rows| - 1].txTime < afterTime)
    ensures InWindow(rows, afterTime, beforeTime) == []
  {
    if rows != [] {
      var init := rows[..|rows| - 1];
      if init != [] { assert init[|init| - 1] == rows[|rows| - 2]; }
      NoneBeforeWindow(init, afterTime, beforeTime);
    }
  }

  lemma {:induction false} ByTimePrefix(rows: seq<PoolTxEvent>, i: nat)
    requires ByTime(rows) && i <= |rows|
    ensures ByTime(rows[..i])
  {
    if i < |rows| {
      assert rows[..|rows| - 1][..i] == rows[..i];
      ByTimePrefix(rows[..|rows| - 1], i);
    } else {
      assert rows[..i] == rows;
    }
  }

  // One step of each scan.
  lemma {:induction false} InsertGoesOn(order: Order, rows: seq<PoolTxEvent>, val: PoolTxEvent, i: nat)
    requires 0 < i <= |rows| && !Less(order, val, rows[i - 1])
    ensures Inserted(order, rows[..i], val) + rows[i..] == Inserted(order, rows[..i - 1], val) + rows[i - 1..]
  {
    hide Less;
    assert rows[..i][..i - 1] == rows[..i - 1] && rows[i - 1..] == [rows[i - 1]] + rows[i..];
  }

  lemma {:induction false} InsertsHere(order: Order, rows: seq<PoolTxEvent>, val: PoolTxEvent, i: nat)
    requires i <= |rows| && (i == 0 || Less(order, val, rows[i - 1]))
    ensures Inserted(order, rows[..i], val) == rows[..i] + [val]
  {
    hide Less;
  }

  lemma WindowStep(rows: seq<PoolTxEvent>, i: nat, afterTime: int, beforeTime: int, n: nat)
    requires i < |rows| && n > 0
    ensures LastN(InWindow(rows[..i + 1], afterTime, beforeTime), n) ==
      if afterTime <= rows[i].txTime < beforeTime then [rows[i]] + LastN(InWindow(rows[..i], afterTime, beforeTime), n - 1)
      else LastN(InWindow(rows[..i], afterTime, beforeTime), n)
  {
    assert rows[..i + 1][..i] == rows[..i];
    var rest := InWindow(rows[..i], afterTime, beforeTime);
    assert (rest + [rows[i]])[..|rest|] == rest;
  }

  lemma {:induction false} WindowEnds(rows: seq<PoolTxEvent>, i: nat, afterTime: int, beforeTime: int)
    requires ByTime(rows) && i < |rows| && rows[i].txTime < afterTime
    ensures InWindow(rows[..i], afterTime, beforeTime) == []
  {
    ByTimePrefix(rows, i + 1);
    ByTimePrefix(rows, i);
    if i > 0 { assert rows[..i + 1][i - 1] == rows[i - 1]; }
    NoneBeforeWindow(rows[..i], afterTime, beforeTime);
  }

  lemma {:induction false} InsertAllNext(order: Order, es: seq<PoolTxEvent>, e: PoolTxEvent)
    ensures InsertAll(order, es + [e]) == Inserted(order, InsertAll(order, es), e)
  {
    assert (es + [e])[..|es|] == es;
  }

  // ---------------------------------------------------------------------------------------------
  // What is read

  // Rows that come newest first: of those with lo <= time < hi, n or all there are, and none that
  // is left out is newer than one that is not.
  ghost predicate NewestOf(found: seq<PoolTxEvent>, rows: seq<PoolTxEvent>, lo: int, hi: int, n: nat) {
    && |found| <= n
    && (forall i, j :: 0 <= i < j < |found| ==> found[i].txTime >= found[j].txTime)
    && (forall x :: x in found ==> x in rows && lo <= x.txTime < hi)
    && multiset(found) <= multiset(rows)
    && (forall x :: x in rows && lo <= x.txTime < hi && multiset(found)[x] < multiset(rows)[x] ==>
          |found| == n && forall y :: y in found ==> y.txTime >= x.txTime)
  }

  lemma {:induction false} WindowOf(rows: seq<PoolTxEvent>, lo: int, hi: int, x: PoolTxEvent)
    ensures multiset(InWindow(rows, lo, hi))[x] == if lo <= x.txTime < hi then multiset(rows)[x] else 0
  {
    if rows != [] {
      var init, last := rows[..|rows| - 1], rows[|rows| - 1];
      WindowOf(init, lo, hi, x);
      assert rows == init + [last];
    }
  }

  lemma {:induction false} WindowByTime(rows: seq<PoolTxEvent>, lo: int, hi: int)
    requires ByTime(rows)
    ensures ByTime(InWindow(rows, lo, hi))
    ensures InWindow(rows, lo, hi) != [] ==>
      rows != [] && InWindow(rows, lo, hi)[|InWindow(rows, lo, hi)| - 1].txTime <= rows[|rows| - 1].txTime
  {
    if rows != [] {
      var init, last := rows[..|rows| - 1], rows[|rows| - 1];
      WindowByTime(init, lo, hi);
      if init != [] { assert init[|init| - 1] == rows[|rows| - 2]; }
      var W := InWindow(init, lo, hi);
      assert (W + [last])[..|W|] == W;
    }
  }

  lemma {:induction false} ByTimePair(rows: seq<PoolTxEvent>, i: nat, j: nat)
    requires ByTime(rows) && i <= j < |rows|
    ensures rows[i].txTime <= rows[j].txTime
  {
    if i < j { ByTimePair(rows[..|rows| - 1], i, if j < |rows| - 1 then j else j - 1); }
  }

  // The last n rows of an index by time, newest first.
  lemma {:induction false} LastAreNewest(rows: seq<PoolTxEvent>, n: nat)
    requires ByTime(rows)
    ensures var found := LastN(rows, n);
      && (forall i, j :: 0 <= i < j < |found| ==> found[i].txTime >= found[j].txTime)
      && multiset(found) <= multiset(rows)
      && (forall x :: multiset(found)[x] < multiset(rows)[x] ==> |found| == n && forall y :: y in found ==> y.txTime >= x.txTime)
  {
    hide LastN, ByTime;
    var found := LastN(rows, n);
    LastNAt(rows, n);
    forall i, j | 0 <= i < j < |found| ensures found[i].txTime >= found[j].txTime {
      ByTimePair(rows, |rows| - 1 - j, |rows| - 1 - i);
    }
    LastNSplit(rows, n);
    var k := |rows| - |found|;
    forall x | multiset(found)[x] < multiset(rows)[x] ensures |found| == n && forall y :: y in found ==> y.txTime >= x.txTime {
      assert x in rows[..k];
      var i :| 0 <= i < k && rows[i] == x;
      forall y | y in found ensures y.txTime >= x.txTime {
        var j :| 0 <= j < |found| && found[j] == y;
        ByTimePair(rows, i, |rows| - 1 - j);
      }
    }
  }

  lemma {:induction false} LastNSplit(rows: seq<PoolTxEvent>, n: nat)
    ensures |LastN(rows, n)| <= |rows|
    ensures multiset(rows) == multiset(rows[..|rows| - |LastN(rows, n)|]) + multiset(LastN(rows, n))
  {
    hide LastN;
    var k := if n > |rows| then |rows| else n;
    LastNAt(rows, n);
    LastNCapped(rows, n);
    LastNIsTail(rows, k);
    SameReversed(rows[|rows| - k..]);
    assert rows == rows[..|rows| - k] + rows[|rows| - k..];
  }

  lemma {:induction false} SameReversed(s: seq<PoolTxEvent>)
    ensures multiset(Reversed(s)) == multiset(s)
  {
    if s != [] {
      SameReversed(s[..|s| - 1]);
      assert s == s[..|s| - 1] + [s[|s| - 1]];
    }
  }

  lemma {:induction false} WindowNewest(rows: seq<PoolTxEvent>, lo: int, hi: int, n: nat)
    requires ByTime(rows)
    ensures NewestOf(LastN(InWindow(rows, lo, hi), n), rows, lo, hi, n)
  {
    hide InWindow, ByTime, LastN, NewestOf;
    var W := InWindow(rows, lo, hi);
    WindowByTime(rows, lo, hi);
    LastAreNewest(W, n);
    LastNAt(W, n);
    forall x: PoolTxEvent
      ensures multiset(W)[x] == if lo <= x.txTime < hi then multiset(rows)[x] else 0
    {
      WindowOf(rows, lo, hi, x);
    }
    NewestAmong(LastN(W, n), W, rows, lo, hi, n);
  }

  lemma NewestAmong(found: seq<PoolTxEvent>, W: seq<PoolTxEvent>, rows: seq<PoolTxEvent>, lo: int, hi: int, n: nat)
    requires |found| <= n && (forall i, j :: 0 <= i < j < |found| ==> found[i].txTime >= found[j].txTime)
    requires multiset(found) <= multiset(W)
    requires forall x :: multiset(found)[x] < multiset(W)[x] ==> |found| == n && forall y :: y in found ==> y.txTime >= x.txTime
    requires forall x :: multiset(W)[x] == if lo <= x.txTime < hi then multiset(rows)[x] else 0
    ensures NewestOf(found, rows, lo, hi, n)
  {
    forall x | x in found ensures x in rows && lo <= x.txTime < hi {
      assert 0 < multiset(found)[x] <= multiset(W)[x];
      assert multiset(rows)[x] > 0;
    }
    forall x: PoolTxEvent ensures multiset(found)[x] <= multiset(rows)[x] {
      assert multiset(found)[x] <= multiset(W)[x];
    }
  }

  // ---------------------------------------------------------------------------------------------
  // The index

  // A user or a pool.
  type Owner = int

  lemma {:induction false} NoneToRead(rows: seq<PoolTxEvent>, afterTime: int, beforeTime: int)
    requires rows == []
    ensures InWindow(rows, afterTime, beforeTime) == []
  {
  }

  class TxIndex {
    const order: Order
    var entries: map<Owner, seq<PoolTxEvent>>
    ghost var added: map<Owner, seq<PoolTxEvent>>     // what was inserted, in that order

    ghost predicate Valid()
      reads this
    {
      && (forall k :: k in entries <==> k in added)
      && forall k :: k in entries ==> entries[k] == InsertAll(order, added[k])
    }

    constructor (order: Order)
      ensures Valid() && this.order == order && entries == map[]
    {
      this.order, entries, added := order, map[], map[];
    }

    function Rows(key: Owner): seq<PoolTxEvent>
      reads this
    {
      if key in entries then entries[key] else []
    }

    ghost function Added(key: Owner): seq<PoolTxEvent>
      reads this
    {
      if key in added then added[key] else []
    }

    method InsertSorted(key: Owner, val: PoolTxEvent)
      requires Valid()
      modifies this
      ensures Valid()
      ensures entries == old(entries)[key := Inserted(order, old(Rows(key)), val)]
      ensures added == old(added)[key := old(Added(key)) + [val]]
    {
      hide Inserted, Less, InsertAll;
      var result := if key in entries then entries[key] else [];
      ghost var before, next := Added(key), Inserted(order, result, val);
      NoInsertions(order);
      InsertAllNext(order, before, val);
      var i := |result|;
      assert result[..i] == result && result[i..] == [];
      while i > 0
        invariant 0 <= i <= |result|
        invariant next == Inserted(order, result[..i], val) + result[i..]
        invariant entries == old(entries) && added == old(added)
      {
        if Less(order, val, result[i - 1]) {
          break;
        }
        InsertGoesOn(order, result, val, i);
        i := i - 1;
      }
      InsertsHere(order, result, val, i);
      result := result[..i] + [val] + result[i..];
      assert result == next;
      entries := entries[key := result];
      added := added[key := before + [val]];
    }

    method LookupLastN(key: Owner, lastN: nat) returns (retVal: seq<PoolTxEvent>, ok: bool)
      ensures ok <==> key in entries
      ensures retVal == LastN(Rows(key), lastN)
      ensures |retVal| == if |Rows(key)| < lastN then |Rows(key)| else lastN
      ensures forall i :: 0 <= i < |retVal| ==> retVal[i] == Rows(key)[|Rows(key)| - 1 - i]
    {
      retVal, ok := [], key in entries;
      if ok {
        retVal := Basics.LookupLastN(entries[key], lastN);
      }
    }

    // All the transactions of a time window, newest first, up to n of them - but one when n is 0,
    // since the limit is looked at after a row is added.
    method LookupLastNAtTime(key: Owner, afterTime: int, beforeTime: int, n: nat) returns (result: seq<PoolTxEvent>,
            ok: bool)
      requires Valid()
      ensures ok <==> key in entries
      ensures result == LastN(InWindow(Rows(key), afterTime, beforeTime), Max(n, 1))
      ensures NewestOf(result, Rows(key), afterTime, beforeTime, if n == 0 then 1 else n)
    {
      hide InWindow, ByTime, InsertAll, Keys, Ascending;
      result, ok := [], key in entries;
      if ok {
        IndexIsSorted(order, added[key]);
        IndexIsByTime(order, entries[key]);
        WindowNewest(entries[key], afterTime, beforeTime, Max(n, 1));
        result := ScanBack(entries[key], afterTime, beforeTime, n);
      } else {
        NoneToRead(Rows(key), afterTime, beforeTime);
      }
    }
  }

  // The scan from the end, which stops at the limit or at the first row before the window.
  method ScanBack(rows: seq<PoolTxEvent>, afterTime: int, beforeTime: int, n: nat) returns (result: seq<PoolTxEvent>)
    requires ByTime(rows)
    ensures result == LastN(InWindow(rows, afterTime, beforeTime), Max(n, 1))
  {
    hide InWindow, ByTime, LastN, Max;
    result := [];
    ghost var m := Max(n, 1);
    ghost var found := LastN(InWindow(rows, afterTime, beforeTime), m);
    MaxIs(n, 1);
    var i := |rows|;
    assert rows[..i] == rows;
    while i > 0
      invariant 0 <= i <= |rows| && |result| < m
      invariant found == result + LastN(InWindow(rows[..i], afterTime, beforeTime), m - |result|)
    {
      i := i - 1;
      var t := rows[i].txTime;
      ScanStep(rows, i, afterTime, beforeTime, m - |result|);
      if t >= afterTime && t < beforeTime {
        result := result + [rows[i]];
        if |result| >= n {
          return;
        }
      }
      if t < afterTime {
        return;
      }
    }
    NoneToRead(rows[..0], afterTime, beforeTime);
    NoneLeft(InWindow(rows[..0], afterTime, beforeTime), m - |result|);
  }

  lemma ScanStep(rows: seq<PoolTxEvent>, i: nat, afterTime: int, beforeTime: int, m: nat)
    requires ByTime(rows) && i < |rows| && m > 0
    ensures var found, t := LastN(InWindow(rows[..i + 1], afterTime, beforeTime), m), rows[i].txTime;
      if t < afterTime then found == []
      else if t < beforeTime then
        && found == [rows[i]] + LastN(InWindow(rows[..i], afterTime, beforeTime), m - 1)
        && (m == 1 ==> found == [rows[i]])
      else found == LastN(InWindow(rows[..i], afterTime, beforeTime), m)
  {
    hide InWindow, ByTime, LastN;
    WindowStep(rows, i, afterTime, beforeTime, m);
    if rows[i].txTime < afterTime {
      WindowEnds(rows, i, afterTime, beforeTime);
      NoneLeft(InWindow(rows[..i], afterTime, beforeTime), m);
    } else if m == 1 {
      NoneLeft(InWindow(rows[..i], afterTime, beforeTime), 0);
    }
  }

  lemma {:induction false} NoInsertions(order: Order)
    ensures InsertAll(order, []) == []
  {
  }
}
