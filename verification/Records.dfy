/** Coin lists as the chain library's `Coins` writes them: one entry a denom, in the order of denoms, without zeros. */
module Records {
  import opened Outcomes
  import opened Money

  /** Lexicographic order of denoms. */
  predicate Precedes(a: Denom, b: Denom) {
    b != [] && (a == [] || a[0] < b[0] || (a[0] == b[0] && Precedes(a[1..], b[1..])))
  }

  predicate Listed(coins: seq<Coin>, d: Denom) {
    coins != [] && (coins[|coins| - 1].denom == d || Listed(coins[..|coins| - 1], d))
  }

  function Insert(coins: seq<Coin>, c: Coin): seq<Coin> {
    if coins == [] then [c]
    else
      var last := coins[|coins| - 1];
      if Precedes(last.denom, c.denom) then coins + [c] else Insert(coins[..|coins| - 1], c) + [last]
  }

  function Increase(coins: seq<Coin>, c: Coin): seq<Coin>
    requires Listed(coins, c.denom)
  {
    var rest, last := coins[..|coins| - 1], coins[|coins| - 1];
    if last.denom == c.denom then rest + [Coin(c.denom, last.amount + c.amount)] else Increase(rest, c) + [last]
  }

  /** `Coins::add`. */
  function AddCoin(coins: seq<Coin>, c: Coin): seq<Coin> {
    if c.amount == 0 then coins else if Listed(coins, c.denom) then Increase(coins, c) else Insert(coins, c)
  }

  function AddCoins(coins: seq<Coin>, more: seq<Coin>): seq<Coin> {
    if more == [] then coins else AddCoin(AddCoins(coins, more[..|more| - 1]), more[|more| - 1])
  }

  /** `Coins::try_from`: skips zeros, and fails on a denom it has already. */
  function FromVec(coins: seq<Coin>): Outcome<seq<Coin>> {
    if coins == [] then Ok([])
    else
      var last := coins[|coins| - 1];
      var rest :- FromVec(coins[..|coins| - 1]);
      if last.amount == 0 then Ok(rest) else if Listed(rest, last.denom) then Err else Ok(Insert(rest, last))
  }

  function CoinTotal(coins: seq<Coin>, d: Denom): nat {
    if coins == [] then 0
    else CoinTotal(coins[..|coins| - 1], d) + if coins[|coins| - 1].denom == d then coins[|coins| - 1].amount else 0
  }

  predicate DistinctDenoms(coins: seq<Coin>) {
    forall i, j :: 0 <= i < j < |coins| ==> coins[i].denom != coins[j].denom
  }

  predicate Twice(coins: seq<Coin>, i: nat, j: nat) {
    i < j < |coins| && coins[i].denom == coins[j].denom && coins[i].amount > 0 && coins[j].amount > 0
  }

  /** Two entries that are not zero name the same denom. */
  ghost predicate Repeats(coins: seq<Coin>) {
    exists i, j :: Twice(coins, i, j)
  }

  /** One entry a denom, none of them zero. */
  predicate Clean(coins: seq<Coin>) {
    DistinctDenoms(coins) && forall i :: 0 <= i < |coins| ==> coins[i].amount > 0
  }

  // ---- Appending one entry ----

  lemma {:induction false} Append(coins: seq<Coin>, c: Coin, d: Denom)
    ensures CoinTotal(coins + [c], d) == CoinTotal(coins, d) + if c.denom == d then c.amount else 0
    ensures Listed(coins + [c], d) <==> c.denom == d || Listed(coins, d)
  {
    assert (coins + [c])[..|coins|] == coins;
  }

  lemma {:induction false} ListedAt(coins: seq<Coin>, d: Denom)
    ensures Listed(coins, d) <==> exists i :: 0 <= i < |coins| && coins[i].denom == d
  {
    if coins != [] {
      ListedAt(coins[..|coins| - 1], d);
    }
  }

  lemma {:induction false} CleanAppend(coins: seq<Coin>, c: Coin)
    ensures Clean(coins + [c]) <==> Clean(coins) && c.amount > 0 && !Listed(coins, c.denom)
  {
    ListedAt(coins, c.denom);
    var all := coins + [c];
    if Clean(all) {
      forall i | 0 <= i < |coins| ensures coins[i].amount > 0 && coins[i].denom != c.denom {
        assert all[i] == coins[i] && all[|coins|] == c;
      }
      assert forall i, j :: 0 <= i < j < |coins| ==> all[i] == coins[i] && all[j] == coins[j];
      assert all[|coins|] == c;
    }
  }

  // ---- Adding to a record ----

  lemma {:induction false} Inserted(coins: seq<Coin>, c: Coin, d: Denom)
    ensures CoinTotal(Insert(coins, c), d) == CoinTotal(coins, d) + if c.denom == d then c.amount else 0
    ensures Listed(Insert(coins, c), d) <==> c.denom == d || Listed(coins, d)
  {
    if coins == [] {
      Append([], c, d);
      assert [] + [c] == [c];
    } else {
      var rest, last := coins[..|coins| - 1], coins[|coins| - 1];
      assert coins == rest + [last];
      Append(rest, last, d);
      if Precedes(last.denom, c.denom) {
        Append(coins, c, d);
      } else {
        Inserted(rest, c, d);
        Append(Insert(rest, c), last, d);
      }
    }
  }

  lemma {:induction false} InsertedClean(coins: seq<Coin>, c: Coin)
    requires Clean(coins) && c.amount > 0 && !Listed(coins, c.denom)
    ensures Clean(Insert(coins, c))
  {
    if coins != [] {
      var rest, last := coins[..|coins| - 1], coins[|coins| - 1];
      assert coins == rest + [last];
      CleanAppend(rest, last);
      if Precedes(last.denom, c.denom) {
        CleanAppend(coins, c);
      } else {
        InsertedClean(rest, c);
        Inserted(rest, c, last.denom);
        CleanAppend(Insert(rest, c), last);
      }
    }
  }

  lemma {:induction false} Increased(coins: seq<Coin>, c: Coin, d: Denom)
    requires Listed(coins, c.denom)
    ensures CoinTotal(Increase(coins, c), d) == CoinTotal(coins, d) + if c.denom == d then c.amount else 0
    ensures Listed(Increase(coins, c), d) <==> Listed(coins, d)
  {
    var rest, last := coins[..|coins| - 1], coins[|coins| - 1];
    assert coins == rest + [last];
    Append(rest, last, d);
    if last.denom == c.denom {
      Append(rest, Coin(c.denom, last.amount + c.amount), d);
    } else {
      Increased(rest, c, d);
      Append(Increase(rest, c), last, d);
    }
  }

  lemma {:induction false} IncreasedClean(coins: seq<Coin>, c: Coin)
    requires Clean(coins) && Listed(coins, c.denom)
    ensures Clean(Increase(coins, c))
  {
    var rest, last := coins[..|coins| - 1], coins[|coins| - 1];
    assert coins == rest + [last];
    CleanAppend(rest, last);
    if last.denom == c.denom {
      CleanAppend(rest, Coin(c.denom, last.amount + c.amount));
    } else {
      IncreasedClean(rest, c);
      Increased(rest, c, last.denom);
      CleanAppend(Increase(rest, c), last);
    }
  }

  /** Adding coins to a clean record adds their amounts, denom by denom, and leaves it clean. */
  lemma {:induction false} AddingKeepsClean(coins: seq<Coin>, more: seq<Coin>)
    requires Clean(coins)
    ensures Clean(AddCoins(coins, more))
    ensures forall d :: CoinTotal(AddCoins(coins, more), d) == CoinTotal(coins, d) + CoinTotal(more, d)
  {
    if more != [] {
      var rest, last := more[..|more| - 1], more[|more| - 1];
      AddingKeepsClean(coins, rest);
      var before := AddCoins(coins, rest);
      AddedClean(before, last);
      forall d ensures CoinTotal(AddCoins(coins, more), d) == CoinTotal(coins, d) + CoinTotal(more, d) {
        Added(before, last, d);
      }
    }
  }

  lemma {:induction false} Added(coins: seq<Coin>, c: Coin, d: Denom)
    ensures CoinTotal(AddCoin(coins, c), d) == CoinTotal(coins, d) + if c.denom == d then c.amount else 0
  {
    if c.amount > 0 {
      if Listed(coins, c.denom) {
        Increased(coins, c, d);
      } else {
        Inserted(coins, c, d);
      }
    }
  }

  lemma {:induction false} AddedClean(coins: seq<Coin>, c: Coin)
    requires Clean(coins)
    ensures Clean(AddCoin(coins, c))
  {
    if c.amount > 0 {
      if Listed(coins, c.denom) {
        IncreasedClean(coins, c);
      } else {
        InsertedClean(coins, c);
      }
    }
  }

  // ---- Converting a record ----

  /** Some entry that is not zero names the denom. */
  predicate Names(coins: seq<Coin>, d: Denom) {
    exists i :: 0 <= i < |coins| && coins[i].denom == d && coins[i].amount > 0
  }

  lemma {:induction false} NamesMore(coins: seq<Coin>, d: Denom)
    requires coins != []
    ensures var rest, last := coins[..|coins| - 1], coins[|coins| - 1];
      Names(coins, d) <==> Names(rest, d) || (last.denom == d && last.amount > 0)
  {
    var rest := coins[..|coins| - 1];
    if Names(rest, d) {
      var i :| 0 <= i < |rest| && rest[i].denom == d && rest[i].amount > 0;
      assert coins[i] == rest[i];
    }
    if Names(coins, d) {
      var i :| 0 <= i < |coins| && coins[i].denom == d && coins[i].amount > 0;
      assert i < |rest| ==> rest[i] == coins[i];
    }
  }

  lemma {:induction false} RepeatsMore(coins: seq<Coin>)
    requires coins != []
    ensures var rest, last := coins[..|coins| - 1], coins[|coins| - 1];
      Repeats(coins) <==> Repeats(rest) || (last.amount > 0 && Names(rest, last.denom))
  {
    var rest, n := coins[..|coins| - 1], |coins| - 1;
    if Repeats(coins) {
      var i: nat, j: nat :| Twice(coins, i, j);
      assert rest[i] == coins[i];
      assert j < n ==> rest[j] == coins[j] && Twice(rest, i, j);
    }
    if Repeats(rest) {
      var i: nat, j: nat :| Twice(rest, i, j);
      assert coins[i] == rest[i] && coins[j] == rest[j] && Twice(coins, i, j);
    }
    if coins[n].amount > 0 && Names(rest, coins[n].denom) {
      var i :| 0 <= i < |rest| && rest[i].denom == coins[n].denom && rest[i].amount > 0;
      assert coins[i] == rest[i] && Twice(coins, i, n);
    }
  }

  /** A list converts exactly when no denom repeats in it; the record is clean, with the same amounts. */
  lemma {:induction false} ConvertsExactly(coins: seq<Coin>)
    ensures FromVec(coins).Ok? <==> !Repeats(coins)
    ensures !FromVec(coins).Panic?
    ensures FromVec(coins).Ok? ==>
              && Clean(FromVec(coins).value)
              && (forall d :: Listed(FromVec(coins).value, d) <==> Names(coins, d))
              && (forall d :: CoinTotal(FromVec(coins).value, d) == CoinTotal(coins, d))
  {
    if coins != [] {
      var rest, last := coins[..|coins| - 1], coins[|coins| - 1];
      ConvertsExactly(rest);
      RepeatsMore(coins);
      if FromVec(coins).Ok? {
        var before := FromVec(rest).value;
        if last.amount > 0 {
          InsertedClean(before, last);
        }
        forall d
          ensures Listed(FromVec(coins).value, d) <==> Names(coins, d)
          ensures CoinTotal(FromVec(coins).value, d) == CoinTotal(coins, d)
        {
          NamesMore(coins, d);
          Inserted(before, last, d);
        }
      }
    }
  }

  lemma {:induction false} CleanDoesNotRepeat(coins: seq<Coin>)
    requires Clean(coins)
    ensures !Repeats(coins)
  {
    forall i: nat, j: nat ensures !Twice(coins, i, j) {
    }
  }

  // ---- The order of a record ----

  /** Denoms ascend, none twice. */
  predicate Sorted(coins: seq<Coin>) {
    forall i, j :: 0 <= i < j < |coins| ==> Precedes(coins[i].denom, coins[j].denom)
  }

  lemma {:induction false} PrecedesOrders(a: Denom, b: Denom)
    ensures a == b || Precedes(a, b) || Precedes(b, a)
  {
    if a != [] && b != [] && a[0] == b[0] {
      PrecedesOrders(a[1..], b[1..]);
      assert a == [a[0]] + a[1..] && b == [b[0]] + b[1..];
    }
  }

  lemma {:induction false} PrecedesTransitive(a: Denom, b: Denom, c: Denom)
    requires Precedes(a, b) && Precedes(b, c)
    ensures Precedes(a, c)
  {
    if a != [] && a[0] == b[0] == c[0] {
      PrecedesTransitive(a[1..], b[1..], c[1..]);
    }
  }

  /** Every denom of the list comes before `d`. */
  predicate AllPrecede(coins: seq<Coin>, d: Denom) {
    forall i :: 0 <= i < |coins| ==> Precedes(coins[i].denom, d)
  }

  /** Appending keeps a record sorted exactly when all its denoms come before the new one. */
  lemma {:induction false} SortedAppend(coins: seq<Coin>, c: Coin)
    ensures Sorted(coins + [c]) <==> Sorted(coins) && AllPrecede(coins, c.denom)
  {
    var all, n := coins + [c], |coins|;
    assert all[n] == c && forall i :: 0 <= i < n ==> all[i] == coins[i];
    if Sorted(all) {
      forall i, j | 0 <= i < j < n ensures Precedes(coins[i].denom, coins[j].denom) {
        assert Precedes(all[i].denom, all[j].denom);
      }
      forall i | 0 <= i < n ensures Precedes(coins[i].denom, c.denom) {
        assert Precedes(all[i].denom, all[n].denom);
      }
    }
  }

  lemma {:induction false} InsertedPrecede(coins: seq<Coin>, c: Coin, d: Denom)
    requires AllPrecede(coins, d) && Precedes(c.denom, d)
    ensures AllPrecede(Insert(coins, c), d)
  {
    if coins != [] {
      InsertedPrecede(coins[..|coins| - 1], c, d);
    }
  }

  lemma {:induction false} IncreasedPrecede(coins: seq<Coin>, c: Coin, d: Denom)
    requires AllPrecede(coins, d) && Listed(coins, c.denom)
    ensures AllPrecede(Increase(coins, c), d)
  {
    var rest := coins[..|coins| - 1];
    if coins[|coins| - 1].denom != c.denom {
      IncreasedPrecede(rest, c, d);
    }
  }

  lemma {:induction false} InsertedSorted(coins: seq<Coin>, c: Coin)
    requires Sorted(coins) && !Listed(coins, c.denom)
    ensures Sorted(Insert(coins, c))
  {
    if coins != [] {
      var rest, last := coins[..|coins| - 1], coins[|coins| - 1];
      assert coins == rest + [last];
      SortedAppend(rest, last);
      if Precedes(last.denom, c.denom) {
        PrecedeThrough(rest, last.denom, c.denom);
        SortedAppend(coins, c);
      } else {
        PrecedesOrders(last.denom, c.denom);
        InsertedSorted(rest, c);
        InsertedPrecede(rest, c, last.denom);
        SortedAppend(Insert(rest, c), last);
      }
    }
  }

  lemma {:induction false} PrecedeThrough(coins: seq<Coin>, d: Denom, e: Denom)
    requires AllPrecede(coins, d) && Precedes(d, e)
    ensures AllPrecede(coins, e)
  {
    forall i | 0 <= i < |coins| ensures Precedes(coins[i].denom, e) {
      PrecedesTransitive(coins[i].denom, d, e);
    }
  }

  lemma {:induction false} IncreasedSorted(coins: seq<Coin>, c: Coin)
    requires Sorted(coins) && Listed(coins, c.denom)
    ensures Sorted(Increase(coins, c))
  {
    var rest, last := coins[..|coins| - 1], coins[|coins| - 1];
    assert coins == rest + [last];
    SortedAppend(rest, last);
    if last.denom == c.denom {
      SortedAppend(rest, Coin(c.denom, last.amount + c.amount));
    } else {
      IncreasedSorted(rest, c);
      IncreasedPrecede(rest, c, last.denom);
      SortedAppend(Increase(rest, c), last);
    }
  }

  lemma {:induction false} AddingKeepsSorted(coins: seq<Coin>, more: seq<Coin>)
    requires Sorted(coins)
    ensures Sorted(AddCoins(coins, more))
  {
    if more != [] {
      var rest, last := more[..|more| - 1], more[|more| - 1];
      AddingKeepsSorted(coins, rest);
      var before := AddCoins(coins, rest);
      if last.amount > 0 {
        if Listed(before, last.denom) {
          IncreasedSorted(before, last);
        } else {
          InsertedSorted(before, last);
        }
      }
    }
  }

  /** A list that converts comes out in the order of its denoms, whatever order it was in. */
  lemma {:induction false} ConvertedIsSorted(coins: seq<Coin>)
    requires FromVec(coins).Ok?
    ensures Sorted(FromVec(coins).value)
  {
    if coins != [] {
      var rest, last := coins[..|coins| - 1], coins[|coins| - 1];
      ConvertedIsSorted(rest);
      if last.amount > 0 {
        InsertedSorted(FromVec(rest).value, last);
      }
    }
  }
}
