/**
 * The portfolio reducer of the dashboard (Dashboard.jsx): a pure transition
 * `(state, action) -> state` over an ordered sequence of holdings, the guard
 * that normalises and admits a new ticker, the coercion of a typed amount,
 * and the total-value fold.
 */
module Portfolio {
  import opened Wrappers
  import opened TickerText

  /** One line of a portfolio. Amounts and prices are exact reals; nothing clamps them to be non-negative. */
  datatype Holding = Holding(ticker: string, amount: real, price: real)

  /** The actions dispatched to the reducer; `Unrecognised` is any other action type. */
  datatype Action =
    | Add(item: Holding)
    | Delete(ticker: string)
    | UpdateAmount(ticker: string, amount: real)
    | UpdatePrice(ticker: string, price: real)
    | Unrecognised(kind: string)

  function Tickers(s: seq<Holding>): (r: seq<string>)
  {
    seq(|s|, i requires 0 <= i < |s| => s[i].ticker)
  }

  /** Within one portfolio no ticker occurs twice. */
  ghost predicate UniqueTickers(s: seq<Holding>)
  {
    forall i, j :: 0 <= i < j < |s| ==> s[i].ticker != s[j].ticker
  }

  /** Every ticker is non-empty, trimmed and upper-case. */
  ghost predicate NormalTickers(s: seq<Holding>)
  {
    forall i :: 0 <= i < |s| ==> IsNormalTicker(s[i].ticker)
  }

  // ---------------------------------------------------------------------------
  // The reducer and the array operations it is made of
  // ---------------------------------------------------------------------------

  /** `state.filter(item => item.ticker !== t)`: keeps exactly the holdings with another ticker. */
  function Without(s: seq<Holding>, t: string): (r: seq<Holding>)
    ensures |r| <= |s|
    ensures forall h :: h in r <==> h in s && h.ticker != t
  {
    if s == [] then [] else (if s[0].ticker != t then [s[0]] else []) + Without(s[1..], t)
  }

  /** `state.map(...)` for UPDATE_AMOUNT: every matching holding gets amount `a`; tickers, prices and the rest stay. */
  function WithAmount(s: seq<Holding>, t: string, a: real): (r: seq<Holding>)
    ensures |r| == |s|
    ensures forall i :: 0 <= i < |s| ==>
              && r[i].ticker == s[i].ticker
              && r[i].price == s[i].price
              && r[i].amount == (if s[i].ticker == t then a else s[i].amount)
  {
    if s == [] then []
    else [if s[0].ticker == t then s[0].(amount := a) else s[0]] + WithAmount(s[1..], t, a)
  }

  /** `state.map(...)` for UPDATE_PRICE: every matching holding gets price `p`; tickers, amounts and the rest stay. */
  function WithPrice(s: seq<Holding>, t: string, p: real): (r: seq<Holding>)
    ensures |r| == |s|
    ensures forall i :: 0 <= i < |s| ==>
              && r[i].ticker == s[i].ticker
              && r[i].amount == s[i].amount
              && r[i].price == (if s[i].ticker == t then p else s[i].price)
  {
    if s == [] then []
    else [if s[0].ticker == t then s[0].(price := p) else s[0]] + WithPrice(s[1..], t, p)
  }

  /** `portfolioReducer(state, action)`. */
  function Reduce(state: seq<Holding>, action: Action): (r: seq<Holding>)
    ensures action.Add? ==> |r| == |state| + 1 && r[..|state|] == state && r[|state|] == action.item
    ensures action.Delete? ==> |r| <= |state| && forall h :: h in r ==> h in state
    ensures action.UpdateAmount? || action.UpdatePrice? ==> Tickers(r) == Tickers(state)
    ensures action.Unrecognised? ==> r == state
  {
    match action
    case Add(h) => state + [h]
    case Delete(t) => Without(state, t)
    case UpdateAmount(t, a) => WithAmount(state, t, a)
    case UpdatePrice(t, p) => WithPrice(state, t, p)
    case Unrecognised(_) => state
  }

  // ---------------------------------------------------------------------------
  // DELETE: order, absence and uniqueness
  // ---------------------------------------------------------------------------

  /** Filtering distributes over concatenation, so the kept holdings stay in their original order. */
  lemma {:induction false} WithoutAppend(a: seq<Holding>, b: seq<Holding>, t: string)
    ensures Without(a + b, t) == Without(a, t) + Without(b, t)
  {
    if a == [] {
      assert a + b == b;
    } else {
      assert (a + b)[1..] == a[1..] + b;
      WithoutAppend(a[1..], b, t);
    }
  }

  /** Deleting a ticker that is not there changes nothing. */
  lemma {:induction false} WithoutAbsent(s: seq<Holding>, t: string)
    requires t !in Tickers(s)
    ensures Without(s, t) == s
  {
    if s != [] {
      assert s[0].ticker == Tickers(s)[0];
      assert Tickers(s[1..]) == Tickers(s)[1..];
      WithoutAbsent(s[1..], t);
    }
  }

  /** No holding outside position i carries the ticker at i, when tickers are unique. */
  lemma UniqueElsewhereAbsent(s: seq<Holding>, i: nat)
    requires UniqueTickers(s)
    requires i < |s|
    ensures s[i].ticker !in Tickers(s[..i])
    ensures s[i].ticker !in Tickers(s[i + 1..])
  {
    var pre, post := s[..i], s[i + 1..];
    forall k | 0 <= k < |pre| ensures Tickers(pre)[k] != s[i].ticker { assert pre[k] == s[k]; }
    forall k | 0 <= k < |post| ensures Tickers(post)[k] != s[i].ticker { assert post[k] == s[i + 1 + k]; }
  }

  /** With unique tickers, deleting the ticker at position i removes exactly that holding. */
  lemma WithoutUnique(s: seq<Holding>, i: nat, t: string)
    requires UniqueTickers(s)
    requires i < |s| && s[i].ticker == t
    ensures Without(s, t) == s[..i] + s[i + 1..]
    ensures |Without(s, t)| == |s| - 1
  {
    var pre, post := s[..i], s[i + 1..];
    UniqueElsewhereAbsent(s, i);
    calc {
      Without(s, t);
    == { assert s == (pre + [s[i]]) + post; }
      Without((pre + [s[i]]) + post, t);
    == { WithoutAppend(pre + [s[i]], post, t); }
      Without(pre + [s[i]], t) + Without(post, t);
    == { WithoutAppend(pre, [s[i]], t); }
      Without(pre, t) + Without([s[i]], t) + Without(post, t);
    == { WithoutAbsent(pre, t); WithoutAbsent(post, t); assert [s[i]][1..] == []; }
      pre + post;
    }
  }

  /** Deleting keeps the tickers unique. */
  lemma {:induction false} WithoutKeepsUnique(s: seq<Holding>, t: string)
    requires UniqueTickers(s)
    ensures UniqueTickers(Without(s, t))
  {
    if s != [] {
      var rest := Without(s[1..], t);
      WithoutKeepsUnique(s[1..], t);
      if s[0].ticker != t {
        forall j | 0 <= j < |rest| ensures rest[j].ticker != s[0].ticker {
          assert rest[j] in s[1..];
        }
        var r := [s[0]] + rest;
        forall i, j | 0 <= i < j < |r| ensures r[i].ticker != r[j].ticker {
          if i > 0 { assert r[i] == rest[i - 1] && r[j] == rest[j - 1]; }
        }
      }
    }
  }

  // ---------------------------------------------------------------------------
  // Adding a ticker (addStock / addCrypto)
  // ---------------------------------------------------------------------------

  /** `portfolio.find(h => h.ticker === t)`: the first holding with ticker `t`, if any. */
  function FindByTicker(s: seq<Holding>, t: string): (r: Option<Holding>)
    ensures r.None? <==> t !in Tickers(s)
    ensures r.Some? ==> r.value in s && r.value.ticker == t
    ensures r.Some? ==> exists i :: 0 <= i < |s| && s[i] == r.value && t !in Tickers(s[..i])
  {
    if s == [] then None
    else if s[0].ticker == t then
      assert Tickers(s)[0] == t;
      assert Tickers(s[..0]) == [];
      Some(s[0])
    else
      assert Tickers(s) == [s[0].ticker] + Tickers(s[1..]);
      var r := FindByTicker(s[1..], t);
      if r.Some? then
        var i :| 0 <= i < |s[1..]| && s[1..][i] == r.value && t !in Tickers(s[1..][..i]);
        assert Tickers(s[..i + 1]) == [s[0].ticker] + Tickers(s[1..][..i]);
        r
      else r
  }

  /** Why an add was refused: an empty normalised ticker (silently) or a duplicate (with an alert). */
  datatype AddOutcome = Added | EmptyTicker | DuplicateTicker

  /**
   * The add handler's guard and dispatch: normalise the typed text, refuse an
   * empty ticker or one already held, otherwise dispatch ADD of a zero holding.
   */
  function AddTicker(s: seq<Holding>, typed: string): (r: (AddOutcome, seq<Holding>))
    ensures r.0 == EmptyTicker <==> NormalizeTicker(typed) == []
    ensures r.0 == DuplicateTicker <==> NormalizeTicker(typed) != [] && NormalizeTicker(typed) in Tickers(s)
    ensures r.0 != Added ==> r.1 == s
    ensures r.0 == Added ==> r.1 == s + [Holding(NormalizeTicker(typed), 0.0, 0.0)]
  {
    var t := NormalizeTicker(typed);
    if t == [] then (EmptyTicker, s)
    else if FindByTicker(s, t).Some? then (DuplicateTicker, s)
    else (Added, Reduce(s, Add(Holding(t, 0.0, 0.0))))
  }

  /** Adding keeps tickers unique. */
  lemma AddKeepsUnique(s: seq<Holding>, typed: string)
    requires UniqueTickers(s)
    ensures UniqueTickers(AddTicker(s, typed).1)
  {
    var r := AddTicker(s, typed);
    if r.0 == Added {
      var t := NormalizeTicker(typed);
      assert t !in Tickers(s);
      var n := s + [Holding(t, 0.0, 0.0)];
      assert r.1 == n;
      forall i, j | 0 <= i < j < |n| ensures n[i].ticker != n[j].ticker {
        if j == |s| {
          assert Tickers(s)[i] == s[i].ticker;
        } else {
          assert n[i] == s[i] && n[j] == s[j];
        }
      }
    }
  }

  /** Adding keeps every ticker non-empty, trimmed and upper-case. */
  lemma AddKeepsNormal(s: seq<Holding>, typed: string)
    requires NormalTickers(s)
    ensures NormalTickers(AddTicker(s, typed).1)
  {
  }

  /** The reducer keeps tickers unique unless it is asked to ADD a ticker that is already present. */
  lemma ReduceKeepsUnique(s: seq<Holding>, action: Action)
    requires UniqueTickers(s)
    requires action.Add? ==> action.item.ticker !in Tickers(s)
    ensures UniqueTickers(Reduce(s, action))
  {
    match action
    case Add(h) =>
      forall i | 0 <= i < |s| ensures s[i].ticker != h.ticker {
        assert Tickers(s)[i] == s[i].ticker;
      }
    case Delete(t) => WithoutKeepsUnique(s, t);
    case UpdateAmount(t, a) =>
    case UpdatePrice(t, p) =>
    case Unrecognised(_) =>
  }

  // ---------------------------------------------------------------------------
  // Amount input coercion (handleStockChange / handleCryptoChange)
  // ---------------------------------------------------------------------------

  /**
   * `parseFloat(value) || 0`, with `parseFloat`'s result given as `None` for NaN.
   * NaN and zero are falsy, so both give 0; every other number passes through, negative ones included.
   */
  function CoerceAmount(parsed: Option<real>): (r: real)
    ensures parsed.None? ==> r == 0.0
    ensures parsed.Some? ==> r == parsed.value
  {
    match parsed
    case None => 0.0
    case Some(x) => if x != 0.0 then x else 0.0
  }

  /** The amount handler's dispatch: UPDATE_AMOUNT with the coerced amount. */
  function ChangeAmount(s: seq<Holding>, t: string, parsed: Option<real>): (r: seq<Holding>)
    ensures |r| == |s| && Tickers(r) == Tickers(s)
    ensures forall i :: 0 <= i < |s| ==>
              && r[i].price == s[i].price
              && r[i].amount == (if s[i].ticker == t then parsed.GetOr(0.0) else s[i].amount)
  {
    Reduce(s, UpdateAmount(t, CoerceAmount(parsed)))
  }

  // ---------------------------------------------------------------------------
  // Total value
  // ---------------------------------------------------------------------------

  /** What one holding is worth: `h.price * h.amount`. */
  function Worth(h: Holding): (w: real)
  {
    h.price * h.amount
  }

  /** `s.reduce((total, h) => total + h.price * h.amount, acc)`: the running total carried left to right. */
  function FoldValue(acc: real, s: seq<Holding>): (r: real)
    ensures (forall i :: 0 <= i < |s| ==> Worth(s[i]) >= 0.0) ==> r >= acc
    decreases |s|
  {
    if s == [] then acc else FoldValue(acc + Worth(s[0]), s[1..])
  }

  /** The reduce of the total-value memo, starting from 0. */
  function TotalValue(s: seq<Holding>): (r: real)
    ensures (forall i :: 0 <= i < |s| ==> Worth(s[i]) >= 0.0) ==> r >= 0.0
  {
    FoldValue(0.0, s)
  }

  /** The running total only shifts the result: reducing from `acc` is `acc` plus reducing from 0. */
  lemma {:induction false} FoldValueShift(acc: real, s: seq<Holding>)
    ensures FoldValue(acc, s) == acc + TotalValue(s)
    decreases |s|
  {
    if s != [] {
      FoldValueShift(acc + Worth(s[0]), s[1..]);
      FoldValueShift(Worth(s[0]), s[1..]);
    }
  }

  /** The total of a concatenation is the sum of the totals. */
  lemma {:induction false} TotalValueAppend(a: seq<Holding>, b: seq<Holding>)
    ensures TotalValue(a + b) == TotalValue(a) + TotalValue(b)
  {
    if a == [] {
      assert a + b == b;
    } else {
      assert (a + b)[1..] == a[1..] + b;
      FoldValueShift(Worth(a[0]), a[1..] + b);
      FoldValueShift(Worth(a[0]), a[1..]);
      TotalValueAppend(a[1..], b);
    }
  }

  lemma TotalValueSingle(h: Holding)
    ensures TotalValue([h]) == Worth(h)
  {
    assert [h][1..] == [];
    assert TotalValue([h]) == FoldValue(0.0 + Worth(h), []);
  }

  /** An empty portfolio is worth 0; two shares at 170 and one at 240 are worth 580. */
  lemma TotalValueExamples()
    ensures TotalValue([]) == 0.0
    ensures TotalValue([Holding("NVDA", 2.0, 170.0), Holding("AAPL", 1.0, 240.0)]) == 580.0
  {
    var a, b := Holding("NVDA", 2.0, 170.0), Holding("AAPL", 1.0, 240.0);
    TotalValueAppend([a], [b]);
    TotalValueSingle(a);
    TotalValueSingle(b);
  }

  /** A successful add appends a zero holding, so the total is unchanged. */
  lemma TotalValueAfterAdd(s: seq<Holding>, typed: string)
    ensures TotalValue(AddTicker(s, typed).1) == TotalValue(s)
  {
    var r := AddTicker(s, typed);
    if r.0 == Added {
      TotalValueAppend(s, [Holding(NormalizeTicker(typed), 0.0, 0.0)]);
      TotalValueSingle(Holding(NormalizeTicker(typed), 0.0, 0.0));
    }
  }

  /** The value of one holding between two runs of others adds to theirs. */
  lemma TotalValueSplit(pre: seq<Holding>, h: Holding, post: seq<Holding>)
    ensures TotalValue(pre + [h] + post) == TotalValue(pre) + Worth(h) + TotalValue(post)
  {
    TotalValueAppend(pre + [h], post);
    TotalValueAppend(pre, [h]);
    TotalValueSingle(h);
  }

  /** Removing the holding at i from the fold lowers the total by its worth. */
  lemma TotalValueRemoveAt(s: seq<Holding>, i: nat)
    requires i < |s|
    ensures TotalValue(s[..i] + s[i + 1..]) == TotalValue(s) - Worth(s[i])
  {
    var pre, post := s[..i], s[i + 1..];
    calc {
      TotalValue(s);
    == { assert s == pre + [s[i]] + post; }
      TotalValue(pre + [s[i]] + post);
    == { TotalValueSplit(pre, s[i], post); }
      TotalValue(pre) + Worth(s[i]) + TotalValue(post);
    == { TotalValueAppend(pre, post); }
      TotalValue(pre + post) + Worth(s[i]);
    }
  }

  /** Replacing the holding at i by h in the fold swaps their worths in the total. */
  lemma TotalValueReplaceAt(s: seq<Holding>, i: nat, h: Holding)
    requires i < |s|
    ensures TotalValue(s[..i] + [h] + s[i + 1..]) == TotalValue(s) - Worth(s[i]) + Worth(h)
  {
    var pre, post := s[..i], s[i + 1..];
    calc {
      TotalValue(s);
    == { assert s == pre + [s[i]] + post; }
      TotalValue(pre + [s[i]] + post);
    == { TotalValueSplit(pre, s[i], post); }
      TotalValue(pre) + Worth(s[i]) + TotalValue(post);
    == { TotalValueSplit(pre, h, post); }
      TotalValue(pre + [h] + post) - Worth(h) + Worth(s[i]);
    }
  }

  /** With unique tickers, deleting the holding at i lowers the total by exactly its worth. */
  lemma TotalValueAfterDelete(s: seq<Holding>, i: nat, t: string)
    requires UniqueTickers(s)
    requires i < |s| && s[i].ticker == t
    ensures TotalValue(Reduce(s, Delete(t))) == TotalValue(s) - Worth(s[i])
  {
    WithoutUnique(s, i, t);
    TotalValueRemoveAt(s, i);
  }

  /** With unique tickers, UPDATE_AMOUNT of the ticker at i rewrites that one holding only. */
  lemma WithAmountUnique(s: seq<Holding>, i: nat, t: string, a: real)
    requires UniqueTickers(s)
    requires i < |s| && s[i].ticker == t
    ensures WithAmount(s, t, a) == s[..i] + [s[i].(amount := a)] + s[i + 1..]
  {
    var r, e := WithAmount(s, t, a), s[..i] + [s[i].(amount := a)] + s[i + 1..];
    forall k | 0 <= k < |r| ensures r[k] == e[k] {
      if k != i {
        assert s[k].ticker != t;
      }
    }
  }

  /** With unique tickers, setting the amount of the holding at i to `a` swaps its old worth for its new one in the total. */
  lemma TotalValueAfterUpdateAmount(s: seq<Holding>, i: nat, t: string, a: real)
    requires UniqueTickers(s)
    requires i < |s| && s[i].ticker == t
    ensures TotalValue(Reduce(s, UpdateAmount(t, a))) == TotalValue(s) - Worth(s[i]) + Worth(s[i].(amount := a))
  {
    WithAmountUnique(s, i, t, a);
    TotalValueReplaceAt(s, i, s[i].(amount := a));
  }
}
