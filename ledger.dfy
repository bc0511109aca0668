/** The paper-trading backend: the record operations of backend/crud.py and
    the guards of the endpoints in backend/main.py that call them.  The
    database is one object holding the three tables as sequences; each
    operation is applied atomically (one commit). */
module Ledger {
  import opened Wrappers
  import opened Records
  import opened Text

  /** The budget a new or reset account gets (models.py:21, crud.py:183). */
  const DefaultBudget: real := 100000.00

  /** A row of the users table; its id is its position in the table. */
  datatype User = User(email: string, username: string, hashedPassword: string, budget: real)

  /** An `HTTPException`: status code and detail text. */
  datatype HttpError = HttpError(status: int, detail: string)

  /** The dictionary a successful sell returns. */
  datatype SellReceipt = SellReceipt(user: User, profitOrLoss: real)

  // ----- lookups: `query(...).filter(...).first()` -----

  predicate Owns(h: Holding, owner: nat, ticker: string) {
    h.owner == owner && h.ticker == ticker
  }

  /** The first holding row of `owner` in `ticker`. */
  function FindHolding(hs: seq<Holding>, owner: nat, ticker: string): (r: Option<nat>)
    ensures r.Some? ==> r.value < |hs| && Owns(hs[r.value], owner, ticker)
    ensures r.Some? ==> forall i :: 0 <= i < r.value ==> !Owns(hs[i], owner, ticker)
    ensures r.None? ==> forall i :: 0 <= i < |hs| ==> !Owns(hs[i], owner, ticker)
  {
    if hs == [] then None
    else if Owns(hs[0], owner, ticker) then Some(0)
    else match FindHolding(hs[1..], owner, ticker)
      case None => None
      case Some(i) => Some(i + 1)
  }

  /** The holding `owner` has in `ticker`, if any. */
  function Position(hs: seq<Holding>, owner: nat, ticker: string): Option<Holding> {
    match FindHolding(hs, owner, ticker)
    case None => None
    case Some(i) => Some(hs[i])
  }

  /** The first user registered with `email`. */
  function FindUserByEmail(users: seq<User>, email: string): (r: Option<nat>)
    ensures r.Some? ==> r.value < |users| && users[r.value].email == email
    ensures r.Some? ==> forall i :: 0 <= i < r.value ==> users[i].email != email
    ensures r.None? ==> forall i :: 0 <= i < |users| ==> users[i].email != email
  {
    if users == [] then None
    else if users[0].email == email then Some(0)
    else match FindUserByEmail(users[1..], email)
      case None => None
      case Some(i) => Some(i + 1)
  }

  /** The first user registered with `username`. */
  function FindUserByUsername(users: seq<User>, username: string): (r: Option<nat>)
    ensures r.Some? ==> r.value < |users| && users[r.value].username == username
    ensures r.Some? ==> forall i :: 0 <= i < r.value ==> users[i].username != username
    ensures r.None? ==> forall i :: 0 <= i < |users| ==> users[i].username != username
  {
    if users == [] then None
    else if users[0].username == username then Some(0)
    else match FindUserByUsername(users[1..], username)
      case None => None
      case Some(i) => Some(i + 1)
  }

  // ----- table invariants -----

  /** Email and username are unique columns (models.py:18-19). */
  ghost predicate UniqueAccounts(users: seq<User>) {
    forall i, j :: 0 <= i < j < |users| ==>
      users[i].email != users[j].email && users[i].username != users[j].username
  }

  /** A stored holding belongs to a user, holds at least one share, has a
      non-negative cost basis per share and is keyed by an upper-cased ticker. */
  ghost predicate WellFormedHolding(h: Holding, userCount: nat) {
    h.owner < userCount && h.quantity > 0 && h.averagePurchasePrice >= 0.0 && IsUpper(h.ticker)
  }

  /** Every holding is well formed and no user holds a ticker twice. */
  ghost predicate HoldingsValid(hs: seq<Holding>, userCount: nat) {
    && (forall i :: 0 <= i < |hs| ==> WellFormedHolding(hs[i], userCount))
    && (forall i, j :: 0 <= i < j < |hs| ==> !Owns(hs[j], hs[i].owner, hs[i].ticker))
  }

  /** A BUY records a P/L of 0.0; a SELL always records one. */
  ghost predicate WellFormedTransaction(tx: Transaction, userCount: nat) {
    && tx.owner < userCount && tx.quantity > 0 && tx.pricePerShare >= 0.0 && IsUpper(tx.ticker)
    && (tx.kind == Buy ==> tx.profitOrLoss == Some(0.0))
    && (tx.kind == Sell ==> tx.profitOrLoss.Some?)
  }

  ghost predicate TransactionsValid(txs: seq<Transaction>, userCount: nat) {
    forall i :: 0 <= i < |txs| ==> WellFormedTransaction(txs[i], userCount)
  }

  // ----- sums per user -----

  /** What `owner` paid for the shares they still hold. */
  function Invested(hs: seq<Holding>, owner: nat): real {
    if hs == [] then 0.0
    else (if hs[0].owner == owner then CostBasis(hs[0]) else 0.0) + Invested(hs[1..], owner)
  }

  /** The P/L `owner` has realized by selling. */
  function Realized(txs: seq<Transaction>, owner: nat): real {
    if txs == [] then 0.0
    else (if txs[0].owner == owner then RealizedAmount(txs[0]) else 0.0) + Realized(txs[1..], owner)
  }

  /** `user.holdings`: the user's rows of the holdings table, in table order
      (`HoldingsOfConcat`). */
  function HoldingsOf(hs: seq<Holding>, owner: nat): (r: seq<Holding>)
    ensures forall i :: 0 <= i < |r| ==> r[i] in hs && r[i].owner == owner
    ensures forall i :: 0 <= i < |hs| && hs[i].owner == owner ==> hs[i] in r
    ensures Invested(r, owner) == Invested(hs, owner)
  {
    if hs == [] then []
    else
      var head := if hs[0].owner == owner then [hs[0]] else [];
      InvestedConcat(head, HoldingsOf(hs[1..], owner), owner);
      assert Invested(head, owner) == if hs[0].owner == owner then CostBasis(hs[0]) else 0.0;
      head + HoldingsOf(hs[1..], owner)
  }

  /** `user.transactions`: the user's rows of the transactions table, in
      table order (`TransactionsOfConcat`). */
  function TransactionsOf(txs: seq<Transaction>, owner: nat): (r: seq<Transaction>)
    ensures forall i :: 0 <= i < |r| ==> r[i] in txs && r[i].owner == owner
    ensures forall i :: 0 <= i < |txs| && txs[i].owner == owner ==> txs[i] in r
    ensures Realized(r, owner) == Realized(txs, owner)
  {
    if txs == [] then []
    else
      var head := if txs[0].owner == owner then [txs[0]] else [];
      RealizedConcat(head, TransactionsOf(txs[1..], owner), owner);
      assert Realized(head, owner) == if txs[0].owner == owner then RealizedAmount(txs[0]) else 0.0;
      head + TransactionsOf(txs[1..], owner)
  }
  /** Selecting a user's holdings keeps the table's order. */
  lemma {:induction false} HoldingsOfConcat(a: seq<Holding>, b: seq<Holding>, owner: nat)
    ensures HoldingsOf(a + b, owner) == HoldingsOf(a, owner) + HoldingsOf(b, owner)
    decreases |a|
  {
    if a == [] {
      assert a + b == b;
    } else {
      assert (a + b)[0] == a[0];
      assert (a + b)[1..] == a[1..] + b;
      HoldingsOfConcat(a[1..], b, owner);
    }
  }

  /** Selecting a user's transactions keeps the table's order. */
  lemma {:induction false} TransactionsOfConcat(a: seq<Transaction>, b: seq<Transaction>, owner: nat)
    ensures TransactionsOf(a + b, owner) == TransactionsOf(a, owner) + TransactionsOf(b, owner)
    decreases |a|
  {
    if a == [] {
      assert a + b == b;
    } else {
      assert (a + b)[0] == a[0];
      assert (a + b)[1..] == a[1..] + b;
      TransactionsOfConcat(a[1..], b, owner);
    }
  }


  lemma {:induction false} InvestedConcat(a: seq<Holding>, b: seq<Holding>, owner: nat)
    ensures Invested(a + b, owner) == Invested(a, owner) + Invested(b, owner)
    decreases |a|
  {
    if a != [] {
      assert (a + b)[0] == a[0] && (a + b)[1..] == a[1..] + b;
      InvestedConcat(a[1..], b, owner);
    } else {
      assert a + b == b;
    }
  }

  lemma {:induction false} RealizedConcat(a: seq<Transaction>, b: seq<Transaction>, owner: nat)
    ensures Realized(a + b, owner) == Realized(a, owner) + Realized(b, owner)
    decreases |a|
  {
    if a != [] {
      assert (a + b)[0] == a[0] && (a + b)[1..] == a[1..] + b;
      RealizedConcat(a[1..], b, owner);
    } else {
      assert a + b == b;
    }
  }

  lemma RealizedAppend(txs: seq<Transaction>, tx: Transaction, owner: nat)
    ensures Realized(txs + [tx], owner)
         == Realized(txs, owner) + (if tx.owner == owner then RealizedAmount(tx) else 0.0)
  {
    RealizedConcat(txs, [tx], owner);
    assert [tx][1..] == [];
  }

  // ----- how a trade changes the holdings table -----

  /** crud.py:54-76: a new row for an unheld ticker, otherwise the held row
      with the quantities added and the average price re-weighted. */
  function ApplyBuy(hs: seq<Holding>, owner: nat, ticker: string, quantity: int, price: real): seq<Holding>
    requires quantity > 0
    requires forall i :: 0 <= i < |hs| ==> hs[i].quantity > 0
  {
    match FindHolding(hs, owner, ticker)
    case None => hs + [Holding(owner, ticker, quantity, price)]
    case Some(i) =>
      var total := hs[i].quantity + quantity;
      hs[i := hs[i].(quantity := total,
                     averagePurchasePrice := (CostBasis(hs[i]) + price * quantity as real) / total as real)]
  }

  /** crud.py:118-121: the held row is deleted when all of it is sold,
      otherwise its quantity goes down and its average price stays. */
  function ApplySell(hs: seq<Holding>, owner: nat, ticker: string, quantity: int): seq<Holding> {
    match FindHolding(hs, owner, ticker)
    case None => hs
    case Some(i) =>
      if hs[i].quantity == quantity then hs[..i] + hs[i + 1..]
      else hs[i := hs[i].(quantity := hs[i].quantity - quantity)]
  }

  /** In a table without duplicate keys the position of a key is the row that
      carries it. */
  lemma PositionAt(hs: seq<Holding>, userCount: nat, j: nat)
    requires HoldingsValid(hs, userCount) && j < |hs|
    ensures Position(hs, hs[j].owner, hs[j].ticker) == Some(hs[j])
  {
    assert FindHolding(hs, hs[j].owner, hs[j].ticker).Some?;
  }

  lemma PositionNone(hs: seq<Holding>, owner: nat, ticker: string)
    requires forall i :: 0 <= i < |hs| ==> !Owns(hs[i], owner, ticker)
    ensures Position(hs, owner, ticker) == None
  {
  }

  /** Rewriting one row without changing its key keeps keys unique and moves
      no other key's position. */
  lemma UpdateRow(hs: seq<Holding>, userCount: nat, i: nat, x: Holding)
    requires HoldingsValid(hs, userCount) && i < |hs|
    requires Owns(x, hs[i].owner, hs[i].ticker) && WellFormedHolding(x, userCount)
    ensures HoldingsValid(hs[i := x], userCount)
    ensures Position(hs[i := x], x.owner, x.ticker) == Some(x)
    ensures forall o, t :: !(o == x.owner && t == x.ticker) ==>
              Position(hs[i := x], o, t) == Position(hs, o, t)
    ensures forall o :: Invested(hs[i := x], o) == Invested(hs, o)
              - (if x.owner == o then CostBasis(hs[i]) else 0.0)
              + (if x.owner == o then CostBasis(x) else 0.0)
  {
    var after := hs[i := x];
    PositionAt(after, userCount, i);
    forall o, t | !(o == x.owner && t == x.ticker)
      ensures Position(after, o, t) == Position(hs, o, t)
    {
      var k := FindHolding(hs, o, t);
      if k.Some? {
        PositionAt(hs, userCount, k.value);
        PositionAt(after, userCount, k.value);
      } else {
        PositionNone(after, o, t);
      }
    }
    forall o ensures Invested(after, o) == Invested(hs, o)
              - (if x.owner == o then CostBasis(hs[i]) else 0.0)
              + (if x.owner == o then CostBasis(x) else 0.0)
    {
      assert hs == hs[..i] + [hs[i]] + hs[i + 1..];
      assert after == hs[..i] + [x] + hs[i + 1..];
      InvestedConcat(hs[..i] + [hs[i]], hs[i + 1..], o);
      InvestedConcat(hs[..i], [hs[i]], o);
      InvestedConcat(hs[..i] + [x], hs[i + 1..], o);
      InvestedConcat(hs[..i], [x], o);
    }
  }

  /** Appending a row with a fresh key keeps keys unique and moves no other
      key's position. */
  lemma AppendRow(hs: seq<Holding>, userCount: nat, x: Holding)
    requires HoldingsValid(hs, userCount) && WellFormedHolding(x, userCount)
    requires Position(hs, x.owner, x.ticker) == None
    ensures HoldingsValid(hs + [x], userCount)
    ensures Position(hs + [x], x.owner, x.ticker) == Some(x)
    ensures forall o, t :: !(o == x.owner && t == x.ticker) ==>
              Position(hs + [x], o, t) == Position(hs, o, t)
    ensures forall o :: Invested(hs + [x], o) == Invested(hs, o) + (if x.owner == o then CostBasis(x) else 0.0)
  {
    var after := hs + [x];
    assert HoldingsValid(after, userCount);
    PositionAt(after, userCount, |hs|);
    forall o, t | !(o == x.owner && t == x.ticker)
      ensures Position(after, o, t) == Position(hs, o, t)
    {
      var k := FindHolding(hs, o, t);
      if k.Some? {
        PositionAt(hs, userCount, k.value);
        PositionAt(after, userCount, k.value);
      } else {
        PositionNone(after, o, t);
      }
    }
    forall o ensures Invested(after, o) == Invested(hs, o) + (if x.owner == o then CostBasis(x) else 0.0) {
      InvestedConcat(hs, [x], o);
    }
  }

  /** The rows after deleting row `i` are the others, in order. */
  lemma RemovedRows(hs: seq<Holding>, i: nat)
    requires i < |hs|
    ensures var after := hs[..i] + hs[i + 1..];
      |after| == |hs| - 1 && forall j :: 0 <= j < |after| ==> after[j] == hs[if j < i then j else j + 1]
  {
  }

  lemma RemoveRowValid(hs: seq<Holding>, userCount: nat, i: nat)
    requires HoldingsValid(hs, userCount) && i < |hs|
    ensures HoldingsValid(hs[..i] + hs[i + 1..], userCount)
    ensures forall h :: h in hs[..i] + hs[i + 1..] ==> !Owns(h, hs[i].owner, hs[i].ticker)
  {
    var after := hs[..i] + hs[i + 1..];
    RemovedRows(hs, i);
    forall j1, j2 | 0 <= j1 < j2 < |after|
      ensures !Owns(after[j2], after[j1].owner, after[j1].ticker)
    {
      var k1, k2 := if j1 < i then j1 else j1 + 1, if j2 < i then j2 else j2 + 1;
      assert after[j1] == hs[k1] && after[j2] == hs[k2] && k1 < k2;
    }
    forall h | h in after ensures !Owns(h, hs[i].owner, hs[i].ticker) {
      var j :| 0 <= j < |after| && after[j] == h;
      var k := if j < i then j else j + 1;
      assert after[j] == hs[k];
    }
  }

  lemma RemoveRowPosition(hs: seq<Holding>, userCount: nat, i: nat, o: nat, t: string)
    requires HoldingsValid(hs, userCount) && i < |hs|
    requires HoldingsValid(hs[..i] + hs[i + 1..], userCount)
    requires !(o == hs[i].owner && t == hs[i].ticker)
    ensures Position(hs[..i] + hs[i + 1..], o, t) == Position(hs, o, t)
  {
    var after := hs[..i] + hs[i + 1..];
    RemovedRows(hs, i);
    var k := FindHolding(after, o, t);
    if k.Some? {
      var j := if k.value < i then k.value else k.value + 1;
      assert after[k.value] == hs[j];
      PositionAt(hs, userCount, j);
      PositionAt(after, userCount, k.value);
    } else {
      forall j | 0 <= j < |hs| ensures !Owns(hs[j], o, t) {
        if j < i {
          assert hs[j] == after[j];
        } else if j > i {
          assert hs[j] == after[j - 1];
        }
      }
      PositionNone(hs, o, t);
    }
  }

  lemma RemoveRowInvested(hs: seq<Holding>, i: nat, o: nat)
    requires i < |hs|
    ensures Invested(hs[..i] + hs[i + 1..], o) == Invested(hs, o) - (if hs[i].owner == o then CostBasis(hs[i]) else 0.0)
  {
    assert hs == hs[..i] + [hs[i]] + hs[i + 1..];
    InvestedConcat(hs[..i] + [hs[i]], hs[i + 1..], o);
    InvestedConcat(hs[..i], [hs[i]], o);
    InvestedConcat(hs[..i], hs[i + 1..], o);
  }

  /** Deleting a row keeps keys unique, removes that key and moves no other
      key's position. */
  lemma RemoveRow(hs: seq<Holding>, userCount: nat, i: nat)
    requires HoldingsValid(hs, userCount) && i < |hs|
    ensures HoldingsValid(hs[..i] + hs[i + 1..], userCount)
    ensures Position(hs[..i] + hs[i + 1..], hs[i].owner, hs[i].ticker) == None
    ensures forall o, t :: !(o == hs[i].owner && t == hs[i].ticker) ==>
              Position(hs[..i] + hs[i + 1..], o, t) == Position(hs, o, t)
    ensures forall o :: Invested(hs[..i] + hs[i + 1..], o)
              == Invested(hs, o) - (if hs[i].owner == o then CostBasis(hs[i]) else 0.0)
  {
    var after := hs[..i] + hs[i + 1..];
    RemoveRowValid(hs, userCount, i);
    PositionNone(after, hs[i].owner, hs[i].ticker);
    forall o, t | !(o == hs[i].owner && t == hs[i].ticker)
      ensures Position(after, o, t) == Position(hs, o, t)
    {
      RemoveRowPosition(hs, userCount, i, o, t);
    }
    forall o ensures Invested(after, o) == Invested(hs, o) - (if hs[i].owner == o then CostBasis(hs[i]) else 0.0) {
      RemoveRowInvested(hs, i, o);
    }
  }

  /** Re-weighting: the average `(c + p) / n` of a cost basis `c + p` over
      `n` shares gives back that cost basis. */
  lemma AverageTimesQuantity(c: real, p: real, n: int)
    requires n > 0
    ensures (c + p) / n as real * n as real == c + p
  {
  }

  /** The re-weighted row of crud.py:61-67 is well formed and its cost basis
      adds the cost of the new shares. */
  lemma Reweighted(h: Holding, userCount: nat, quantity: int, price: real)
    requires WellFormedHolding(h, userCount) && quantity > 0 && price >= 0.0
    ensures var total := h.quantity + quantity;
      var x := h.(quantity := total, averagePurchasePrice := (CostBasis(h) + price * quantity as real) / total as real);
      WellFormedHolding(x, userCount) && CostBasis(x) == CostBasis(h) + price * quantity as real
  {
    var total := h.quantity + quantity;
    AverageTimesQuantity(CostBasis(h), price * quantity as real, total);
    assert CostBasis(h) >= 0.0 && price * quantity as real >= 0.0;
  }

  /** Buying more of a held ticker (crud.py:59-67). */
  lemma BuyHeld(hs: seq<Holding>, userCount: nat, owner: nat, ticker: string, quantity: int, price: real)
    requires HoldingsValid(hs, userCount)
    requires quantity > 0 && price >= 0.0
    requires FindHolding(hs, owner, ticker).Some?
    ensures var after, h := ApplyBuy(hs, owner, ticker, quantity, price), Position(hs, owner, ticker).value;
      && HoldingsValid(after, userCount)
      && Position(after, owner, ticker).Some?
      && Position(after, owner, ticker).value.quantity == h.quantity + quantity
      && CostBasis(Position(after, owner, ticker).value) == CostBasis(h) + price * quantity as real
      && (forall o, t :: !(o == owner && t == ticker) ==> Position(after, o, t) == Position(hs, o, t))
      && (forall o :: Invested(after, o) == Invested(hs, o) + (if o == owner then price * quantity as real else 0.0))
  {
    var i := FindHolding(hs, owner, ticker).value;
    var h := hs[i];
    var total := h.quantity + quantity;
    var x := h.(quantity := total, averagePurchasePrice := (CostBasis(h) + price * quantity as real) / total as real);
    assert ApplyBuy(hs, owner, ticker, quantity, price) == hs[i := x];
    Reweighted(h, userCount, quantity, price);
    UpdateRow(hs, userCount, i, x);
  }

  /** A buy (crud.py:54-76).  The buyer ends up with exactly one holding in
      the ticker: a new one of `quantity` shares at `price` when there was
      none, otherwise the old one with `quantity` more shares and an average
      price whose cost basis adds `price * quantity` to the old one.  No other
      position changes and the buyer's invested amount grows by the cost. */
  lemma BuyPosition(hs: seq<Holding>, userCount: nat, owner: nat, ticker: string, quantity: int, price: real)
    requires HoldingsValid(hs, userCount)
    requires owner < userCount && IsUpper(ticker) && quantity > 0 && price >= 0.0
    ensures var after := ApplyBuy(hs, owner, ticker, quantity, price);
      && HoldingsValid(after, userCount)
      && Position(after, owner, ticker).Some?
      && (Position(hs, owner, ticker).None? ==>
            Position(after, owner, ticker) == Some(Holding(owner, ticker, quantity, price)))
      && (Position(hs, owner, ticker).Some? ==>
            var h, h' := Position(hs, owner, ticker).value, Position(after, owner, ticker).value;
            && h'.quantity == h.quantity + quantity
            && CostBasis(h') == CostBasis(h) + price * quantity as real)
      && (forall o, t :: !(o == owner && t == ticker) ==> Position(after, o, t) == Position(hs, o, t))
      && (forall o :: Invested(after, o) == Invested(hs, o) + (if o == owner then price * quantity as real else 0.0))
  {
    if FindHolding(hs, owner, ticker).None? {
      var x := Holding(owner, ticker, quantity, price);
      assert ApplyBuy(hs, owner, ticker, quantity, price) == hs + [x];
      AppendRow(hs, userCount, x);
    } else {
      BuyHeld(hs, userCount, owner, ticker, quantity, price);
    }
  }

  /** A sell of at most the held quantity (crud.py:118-121): the holding is
      gone exactly when everything was sold, otherwise it keeps its average
      price and loses `quantity` shares.  No other position changes and the
      seller's invested amount shrinks by the cost basis of the sold shares. */
  lemma SellPosition(hs: seq<Holding>, userCount: nat, owner: nat, ticker: string, quantity: int)
    requires HoldingsValid(hs, userCount) && quantity > 0
    requires Position(hs, owner, ticker).Some? && quantity <= Position(hs, owner, ticker).value.quantity
    ensures var h, after := Position(hs, owner, ticker).value, ApplySell(hs, owner, ticker, quantity);
      && HoldingsValid(after, userCount)
      && (quantity == h.quantity ==> Position(after, owner, ticker) == None)
      && (quantity < h.quantity ==> Position(after, owner, ticker) == Some(h.(quantity := h.quantity - quantity)))
      && (forall o, t :: !(o == owner && t == ticker) ==> Position(after, o, t) == Position(hs, o, t))
      && (forall o :: Invested(after, o)
            == Invested(hs, o) - (if o == owner then h.averagePurchasePrice * quantity as real else 0.0))
  {
    var i := FindHolding(hs, owner, ticker).value;
    var h := hs[i];
    if h.quantity == quantity {
      assert ApplySell(hs, owner, ticker, quantity) == hs[..i] + hs[i + 1..];
      RemoveRow(hs, userCount, i);
    } else {
      var x := h.(quantity := h.quantity - quantity);
      assert ApplySell(hs, owner, ticker, quantity) == hs[i := x];
      UpdateRow(hs, userCount, i, x);
      assert CostBasis(h) - CostBasis(x) == h.averagePurchasePrice * quantity as real;
    }
  }

  // ----- account reset -----

  function HoldingsNotOf(hs: seq<Holding>, owner: nat): (r: seq<Holding>)
    ensures forall i :: 0 <= i < |r| ==> r[i] in hs && r[i].owner != owner
    ensures forall i :: 0 <= i < |hs| && hs[i].owner != owner ==> hs[i] in r
  {
    if hs == [] then []
    else (if hs[0].owner == owner then [] else [hs[0]]) + HoldingsNotOf(hs[1..], owner)
  }

  function TransactionsNotOf(txs: seq<Transaction>, owner: nat): (r: seq<Transaction>)
    ensures forall i :: 0 <= i < |r| ==> r[i] in txs && r[i].owner != owner
    ensures forall i :: 0 <= i < |txs| && txs[i].owner != owner ==> txs[i] in r
  {
    if txs == [] then []
    else (if txs[0].owner == owner then [] else [txs[0]]) + TransactionsNotOf(txs[1..], owner)
  }

  lemma TailValid(hs: seq<Holding>, userCount: nat)
    requires hs != [] && HoldingsValid(hs, userCount)
    ensures HoldingsValid(hs[1..], userCount)
    ensures forall h :: h in hs[1..] ==> !Owns(h, hs[0].owner, hs[0].ticker)
  {
    var tail := hs[1..];
    forall j1, j2 | 0 <= j1 < j2 < |tail| ensures !Owns(tail[j2], tail[j1].owner, tail[j1].ticker) {
      assert tail[j1] == hs[j1 + 1] && tail[j2] == hs[j2 + 1];
    }
    forall h | h in tail ensures !Owns(h, hs[0].owner, hs[0].ticker) {
      var k :| 0 <= k < |tail| && tail[k] == h;
      assert tail[k] == hs[k + 1];
    }
  }

  lemma ConsValid(h: Holding, rest: seq<Holding>, userCount: nat)
    requires WellFormedHolding(h, userCount) && HoldingsValid(rest, userCount)
    requires forall x :: x in rest ==> !Owns(x, h.owner, h.ticker)
    ensures HoldingsValid([h] + rest, userCount)
  {
    var after := [h] + rest;
    forall j1, j2 | 0 <= j1 < j2 < |after| ensures !Owns(after[j2], after[j1].owner, after[j1].ticker) {
      if j1 > 0 {
        assert after[j1] == rest[j1 - 1] && after[j2] == rest[j2 - 1];
      } else {
        assert after[j2] == rest[j2 - 1] && after[j2] in rest;
      }
    }
  }

  lemma {:induction false} ResetHoldingsValid(hs: seq<Holding>, userCount: nat, owner: nat)
    requires HoldingsValid(hs, userCount)
    ensures HoldingsValid(HoldingsNotOf(hs, owner), userCount)
    decreases |hs|
  {
    if hs != [] {
      var tail := hs[1..];
      TailValid(hs, userCount);
      ResetHoldingsValid(tail, userCount, owner);
      var rest := HoldingsNotOf(tail, owner);
      if hs[0].owner != owner {
        assert HoldingsNotOf(hs, owner) == [hs[0]] + rest;
        forall x | x in rest ensures !Owns(x, hs[0].owner, hs[0].ticker) {
          var j :| 0 <= j < |rest| && rest[j] == x;
          assert x in tail;
        }
        ConsValid(hs[0], rest, userCount);
      } else {
        assert HoldingsNotOf(hs, owner) == rest;
      }
    }
  }

  lemma {:induction false} ResetHoldingsInvested(hs: seq<Holding>, owner: nat, o: nat)
    ensures Invested(HoldingsNotOf(hs, owner), o) == if o == owner then 0.0 else Invested(hs, o)
    decreases |hs|
  {
    if hs != [] {
      ResetHoldingsInvested(hs[1..], owner, o);
      var rest := HoldingsNotOf(hs[1..], owner);
      if hs[0].owner == owner {
        assert HoldingsNotOf(hs, owner) == rest;
      } else {
        assert HoldingsNotOf(hs, owner) == [hs[0]] + rest;
        assert ([hs[0]] + rest)[1..] == rest;
      }
    }
  }

  /** Deleting one user's holdings (crud.py:180) leaves a valid table in which
      that user holds nothing and every other user's positions and invested
      amount are as before. */
  lemma ResetHoldings(hs: seq<Holding>, userCount: nat, owner: nat)
    requires HoldingsValid(hs, userCount)
    ensures var after := HoldingsNotOf(hs, owner);
      && HoldingsValid(after, userCount)
      && (forall o :: Invested(after, o) == if o == owner then 0.0 else Invested(hs, o))
      && (forall t :: Position(after, owner, t) == None)
      && (forall o, t :: o != owner ==> Position(after, o, t) == Position(hs, o, t))
  {
    var after := HoldingsNotOf(hs, owner);
    ResetHoldingsValid(hs, userCount, owner);
    forall o ensures Invested(after, o) == if o == owner then 0.0 else Invested(hs, o) {
      ResetHoldingsInvested(hs, owner, o);
    }
    forall t ensures Position(after, owner, t) == None {
      PositionNone(after, owner, t);
    }
    forall o, t | o != owner ensures Position(after, o, t) == Position(hs, o, t) {
      var k := FindHolding(after, o, t);
      if k.Some? {
        var j :| 0 <= j < |hs| && hs[j] == after[k.value];
        PositionAt(after, userCount, k.value);
        PositionAt(hs, userCount, j);
      } else {
        assert forall j :: 0 <= j < |hs| ==> !Owns(hs[j], o, t);
        PositionNone(hs, o, t);
      }
    }
  }

  lemma {:induction false} ResetTransactions(txs: seq<Transaction>, userCount: nat, owner: nat)
    requires TransactionsValid(txs, userCount)
    ensures var after := TransactionsNotOf(txs, owner);
      && TransactionsValid(after, userCount)
      && Realized(after, owner) == 0.0
      && (forall o :: o != owner ==> Realized(after, o) == Realized(txs, o))
    decreases |txs|
  {
    if txs != [] {
      ResetTransactions(txs[1..], userCount, owner);
      var rest := TransactionsNotOf(txs[1..], owner);
      if txs[0].owner == owner {
        assert TransactionsNotOf(txs, owner) == rest;
      } else {
        assert TransactionsNotOf(txs, owner) == [txs[0]] + rest;
        assert ([txs[0]] + rest)[1..] == rest;
      }
    }
  }

  // ----- the database -----

  class Database {
    var users: seq<User>
    var holdings: seq<Holding>
    var transactions: seq<Transaction>

    ghost predicate Valid()
      reads this
    {
      && UniqueAccounts(users)
      && HoldingsValid(holdings, |users|)
      && TransactionsValid(transactions, |users|)
    }

    /** Every budget is non-negative. */
    ghost predicate Solvent()
      reads this
    {
      forall u :: 0 <= u < |users| ==> users[u].budget >= 0.0
    }

    /** Budget plus the cost basis of what is held, minus what selling has
        realized: buying and selling leave it unchanged. */
    ghost function Capital(u: nat): real
      reads this
      requires u < |users|
    {
      users[u].budget + Invested(holdings, u) - Realized(transactions, u)
    }

    constructor ()
      ensures Valid() && Solvent()
      ensures users == [] && holdings == [] && transactions == []
    {
      users, holdings, transactions := [], [], [];
    }

    /** crud.create_user: a new user with the default budget.  The unique
        columns (models.py:18-19) reject a repeated email or username, and
        register_user checks both first. */
    method CreateUser(email: string, username: string, password: string, hash: string -> string)
      returns (id: nat)
      requires Valid()
      requires FindUserByEmail(users, email).None? && FindUserByUsername(users, username).None?
      modifies this
      ensures Valid() && (old(Solvent()) ==> Solvent())
      ensures id == |old(users)|
      ensures users == old(users) + [User(email, username, hash(password), DefaultBudget)]
      ensures holdings == old(holdings) && transactions == old(transactions)
    {
      id := |users|;
      users := users + [User(email, username, hash(password), DefaultBudget)];
    }

    /** POST /register/: "Email already registered" is checked before
        "Username already taken"; otherwise the user is created. */
    method RegisterUser(email: string, username: string, password: string, hash: string -> string)
      returns (r: Result<nat, HttpError>)
      requires Valid()
      modifies this
      ensures Valid() && (old(Solvent()) ==> Solvent())
      ensures FindUserByEmail(old(users), email).Some? ==>
                r == Failure(HttpError(400, "Email already registered"))
      ensures FindUserByEmail(old(users), email).None? && FindUserByUsername(old(users), username).Some? ==>
                r == Failure(HttpError(400, "Username already taken"))
      ensures r.Failure? ==> users == old(users)
      ensures r.Success? <==> FindUserByEmail(old(users), email).None? && FindUserByUsername(old(users), username).None?
      ensures r.Success? ==>
        && r.value == |old(users)|
        && users == old(users) + [User(email, username, hash(password), DefaultBudget)]
      ensures holdings == old(holdings) && transactions == old(transactions)
    {
      if FindUserByEmail(users, email).Some? {
        return Failure(HttpError(400, "Email already registered"));
      }
      if FindUserByUsername(users, username).Some? {
        return Failure(HttpError(400, "Username already taken"));
      }
      var id := CreateUser(email, username, password, hash);
      r := Success(id);
    }

    /** POST /login: the same 401 whether the username is unknown or the
        password does not verify against its stored hash. */
    function Login(username: string, password: string, verify: (string, string) -> bool): (r: Result<nat, HttpError>)
      reads this
      requires Valid()
      ensures r.Success? <==> exists u :: 0 <= u < |users| && users[u].username == username
                                          && verify(password, users[u].hashedPassword)
      ensures r.Success? ==> r.value < |users| && users[r.value].username == username
      ensures r.Failure? ==> r.error == HttpError(401, "Incorrect username or password")
    {
      match FindUserByUsername(users, username)
      case None => Failure(HttpError(401, "Incorrect username or password"))
      case Some(u) =>
        if verify(password, users[u].hashedPassword) then Success(u)
        else
          assert forall v :: 0 <= v < |users| && users[v].username == username ==> v == u;
          Failure(HttpError(401, "Incorrect username or password"))
    }

    /** crud.execute_buy_transaction: `None` when the budget is below
        price × quantity, and then nothing changes; otherwise the budget goes
        down by exactly price × quantity, one BUY with P/L 0.0 is logged under
        the upper-cased ticker and the holding is created or re-weighted. */
    method ExecuteBuyTransaction(u: nat, ticker: string, quantity: int, price: real, now: int)
      returns (r: Option<User>)
      requires Valid() && u < |users|
      requires quantity > 0 && price >= 0.0
      modifies this
      ensures Valid() && (old(Solvent()) ==> Solvent())
      ensures r.None? <==> old(users[u].budget) < price * quantity as real
      ensures r.None? ==> users == old(users) && holdings == old(holdings) && transactions == old(transactions)
      ensures r.Some? ==>
        && users == old(users)[u := old(users[u]).(budget := old(users[u].budget) - price * quantity as real)]
        && r.value == users[u]
        && transactions == old(transactions) + [Transaction(u, Upper(ticker), Buy, quantity, price, now, Some(0.0))]
        && holdings == ApplyBuy(old(holdings), u, Upper(ticker), quantity, price)
      ensures Capital(u) == old(Capital(u))
    {
      var totalCost := price * quantity as real;
      if users[u].budget < totalCost {
        return None;
      }
      var t := Upper(ticker);
      BuyPosition(holdings, |users|, u, t, quantity, price);
      users := users[u := users[u].(budget := users[u].budget - totalCost)];
      var tx := Transaction(u, t, Buy, quantity, price, now, Some(0.0));
      RealizedAppend(transactions, tx, u);
      transactions := transactions + [tx];
      holdings := ApplyBuy(holdings, u, t, quantity, price);
      r := Some(users[u]);
    }

    /** crud.execute_sell_transaction: "Stock not owned" when there is no
        holding for the upper-cased ticker, "Insufficient quantity" when it
        holds fewer shares, both without any change; otherwise a P/L of
        (price − average price) × quantity is recorded in a SELL, the budget
        goes up by price × quantity and the holding shrinks or goes away. */
    method ExecuteSellTransaction(u: nat, ticker: string, quantity: int, price: real, now: int)
      returns (r: Result<SellReceipt, string>)
      requires Valid() && u < |users|
      requires quantity > 0 && price >= 0.0
      modifies this
      ensures Valid() && (old(Solvent()) ==> Solvent())
      ensures Position(old(holdings), u, Upper(ticker)).None? ==> r == Failure("Stock not owned")
      ensures Position(old(holdings), u, Upper(ticker)).Some?
              && Position(old(holdings), u, Upper(ticker)).value.quantity < quantity ==>
                r == Failure("Insufficient quantity")
      ensures r.Failure? ==> users == old(users) && holdings == old(holdings) && transactions == old(transactions)
      ensures Position(old(holdings), u, Upper(ticker)).Some?
              && Position(old(holdings), u, Upper(ticker)).value.quantity >= quantity ==>
        var pl := (price - Position(old(holdings), u, Upper(ticker)).value.averagePurchasePrice) * quantity as real;
        && users == old(users)[u := old(users[u]).(budget := old(users[u].budget) + price * quantity as real)]
        && r == Success(SellReceipt(users[u], pl))
        && transactions == old(transactions) + [Transaction(u, Upper(ticker), Sell, quantity, price, now, Some(pl))]
        && holdings == ApplySell(old(holdings), u, Upper(ticker), quantity)
      ensures Capital(u) == old(Capital(u))
    {
      var t := Upper(ticker);
      var found := FindHolding(holdings, u, t);
      if found.None? {
        return Failure("Stock not owned");
      }
      var h := holdings[found.value];
      if h.quantity < quantity {
        return Failure("Insufficient quantity");
      }
      var profitOrLoss := (price - h.averagePurchasePrice) * quantity as real;
      var totalProceeds := price * quantity as real;
      assert profitOrLoss == totalProceeds - h.averagePurchasePrice * quantity as real;
      assert totalProceeds >= 0.0;
      assert Position(holdings, u, t) == Some(h);
      SellPosition(holdings, |users|, u, t, quantity);
      users := users[u := users[u].(budget := users[u].budget + totalProceeds)];
      var tx := Transaction(u, t, Sell, quantity, price, now, Some(profitOrLoss));
      RealizedAppend(transactions, tx, u);
      transactions := transactions + [tx];
      holdings := ApplySell(holdings, u, t, quantity);
      r := Success(SellReceipt(users[u], profitOrLoss));
      assert profitOrLoss == (price - Position(old(holdings), u, Upper(ticker)).value.averagePurchasePrice) * quantity as real;
    }

    /** crud.update_user_budget: the budget is replaced, nothing else. */
    method UpdateUserBudget(u: nat, newBudget: real) returns (user: User)
      requires Valid() && u < |users|
      modifies this
      ensures Valid()
      ensures users == old(users)[u := old(users[u]).(budget := newBudget)] && user == users[u]
      ensures holdings == old(holdings) && transactions == old(transactions)
    {
      users := users[u := users[u].(budget := newBudget)];
      user := users[u];
    }

    /** crud.reset_user_account: this user's transactions and holdings are
        deleted, other users' rows stay, and the budget is set to 100000.00. */
    method ResetUserAccount(u: nat) returns (user: User)
      requires Valid() && u < |users|
      modifies this
      ensures Valid() && (old(Solvent()) ==> Solvent())
      ensures users == old(users)[u := old(users[u]).(budget := DefaultBudget)] && user == users[u]
      ensures transactions == TransactionsNotOf(old(transactions), u)
      ensures holdings == HoldingsNotOf(old(holdings), u)
      ensures Capital(u) == DefaultBudget
      ensures forall t :: Position(holdings, u, t) == None
      ensures forall o, t :: o != u ==> Position(holdings, o, t) == Position(old(holdings), o, t)
    {
      ResetTransactions(transactions, |users|, u);
      ResetHoldings(holdings, |users|, u);
      transactions := TransactionsNotOf(transactions, u);
      holdings := HoldingsNotOf(holdings, u);
      users := users[u := users[u].(budget := DefaultBudget)];
      user := users[u];
    }

    /** POST /trade/buy/: a rejected buy becomes 400 "Insufficient funds". */
    method BuyStock(u: nat, ticker: string, quantity: int, price: real, now: int)
      returns (r: Result<User, HttpError>)
      requires Valid() && u < |users|
      requires quantity > 0 && price >= 0.0
      modifies this
      ensures Valid() && (old(Solvent()) ==> Solvent()) && |users| == |old(users)|
      ensures r.Failure? <==> old(users[u].budget) < price * quantity as real
      ensures r.Failure? ==>
        && r.error == HttpError(400, "Insufficient funds")
        && users == old(users) && holdings == old(holdings) && transactions == old(transactions)
      ensures r.Success? ==>
        && r.value == users[u]
        && users == old(users)[u := old(users[u]).(budget := old(users[u].budget) - price * quantity as real)]
        && transactions == old(transactions) + [Transaction(u, Upper(ticker), Buy, quantity, price, now, Some(0.0))]
        && holdings == ApplyBuy(old(holdings), u, Upper(ticker), quantity, price)
    {
      var updated := ExecuteBuyTransaction(u, ticker, quantity, price, now);
      if updated.None? {
        return Failure(HttpError(400, "Insufficient funds"));
      }
      r := Success(updated.value);
    }

    /** POST /trade/sell/: the error text of a failed sell becomes the 400
        detail; success returns the user and the P/L. */
    method SellStock(u: nat, ticker: string, quantity: int, price: real, now: int)
      returns (r: Result<SellReceipt, HttpError>)
      requires Valid() && u < |users|
      requires quantity > 0 && price >= 0.0
      modifies this
      ensures Valid() && (old(Solvent()) ==> Solvent()) && |users| == |old(users)|
      ensures Position(old(holdings), u, Upper(ticker)).None? ==> r == Failure(HttpError(400, "Stock not owned"))
      ensures Position(old(holdings), u, Upper(ticker)).Some?
              && Position(old(holdings), u, Upper(ticker)).value.quantity < quantity ==>
                r == Failure(HttpError(400, "Insufficient quantity"))
      ensures r.Success? <==>
        Position(old(holdings), u, Upper(ticker)).Some? && Position(old(holdings), u, Upper(ticker)).value.quantity >= quantity
      ensures r.Failure? ==> users == old(users) && holdings == old(holdings) && transactions == old(transactions)
      ensures r.Success? ==>
        && r.value.user == users[u]
        && r.value.profitOrLoss
           == (price - Position(old(holdings), u, Upper(ticker)).value.averagePurchasePrice) * quantity as real
        && users == old(users)[u := old(users[u]).(budget := old(users[u].budget) + price * quantity as real)]
        && transactions == old(transactions) + [Transaction(u, Upper(ticker), Sell, quantity, price, now, Some(r.value.profitOrLoss))]
        && holdings == ApplySell(old(holdings), u, Upper(ticker), quantity)
    {
      var result := ExecuteSellTransaction(u, ticker, quantity, price, now);
      if result.Failure? {
        return Failure(HttpError(400, result.error));
      }
      r := Success(result.value);
    }

    /** PUT /users/me/budget: a negative budget is refused with 400 and
        nothing changes; zero or more is stored as given. */
    method UpdateBudget(u: nat, newBudget: real) returns (r: Result<User, HttpError>)
      requires Valid() && u < |users|
      modifies this
      ensures Valid() && (old(Solvent()) ==> Solvent())
      ensures r.Failure? <==> newBudget < 0.0
      ensures r.Failure? ==> r.error == HttpError(400, "Budget cannot be negative.") && users == old(users)
      ensures r.Success? ==> users == old(users)[u := old(users[u]).(budget := newBudget)] && r.value == users[u]
      ensures holdings == old(holdings) && transactions == old(transactions)
    {
      if newBudget < 0.0 {
        return Failure(HttpError(400, "Budget cannot be negative."));
      }
      var user := UpdateUserBudget(u, newBudget);
      r := Success(user);
    }
  }
}
