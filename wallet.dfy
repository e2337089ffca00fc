/**
 * The add-money dialog: the amount guard on the entered text, and the top-up transaction that
 * reads the passenger's wallet balance (0.0 when absent) and writes back the balance plus the
 * amount. Number parsing is a parameter standing for Kotlin's `toDoubleOrNull`.
 */
module Wallet {
  import opened Wrappers
  import opened Documents
  import opened RemoteStore
  import PassengerProfile

  /** The amount to add for the entered text: none for empty text; unparsable text counts as 0.0; only a positive amount is added. */
  function AmountToAdd(amountText: string, parse: string -> Option<real>): (r: Option<real>)
    ensures r.Some? <==> amountText != [] && parse(amountText).Some? && parse(amountText).value > 0.0
    ensures r.Some? ==> r.value == parse(amountText).value
  {
    if amountText == [] then None
    else
      var amount := parse(amountText).GetOr(0.0);
      if amount > 0.0 then Some(amount) else None
  }

  /** The dialog, which is either showing or dismissed. */
  class AddMoneyDialog {
    var showing: bool

    constructor ()
      ensures showing
    {
      showing := true;
    }

    /** The "Add" button: works out the amount to add, if any, and dismisses the dialog in every case. */
    method OnAdd(amountText: string, parse: string -> Option<real>) returns (topUp: Option<real>)
      modifies this
      ensures !showing
      ensures topUp == AmountToAdd(amountText, parse)
    {
      topUp := None;
      if amountText != [] {
        var parsed := parse(amountText);
        var amount := if parsed.Some? then parsed.value else 0.0;
        if amount > 0.0 {
          topUp := Some(amount);
        }
      }
      showing := false;
    }

    /** The "Cancel" button. */
    method OnCancel()
      modifies this
      ensures !showing
    {
      showing := false;
    }
  }

  datatype TopUpOutcome = NoUser | TopUpFailed | ToppedUp(newBalance: real)

  /** The balance the transaction reads: the stored number, 0.0 when absent. */
  function Balance(d: Doc): real {
    GetDouble(d, walletBalance).GetOr(0.0)
  }

  /**
   * The top-up transaction on `passengers/<uid>`: nothing without a user; otherwise the stored
   * balance plus the amount is written to `walletBalance` alone. The write is an update, so a
   * missing document or a failed call changes nothing.
   */
  function TopUp(db: Db, uid: Option<string>, amount: real, net: bool): (r: (Db, TopUpOutcome))
    ensures !r.1.ToppedUp? ==> r.0 == db
    ensures r.1.NoUser? <==> uid.None?
    ensures r.1.ToppedUp? <==> uid.Some? && net && Path(Passengers, uid.value) in db
    ensures r.1.ToppedUp? ==> r.1.newBalance == Balance(db[Path(Passengers, uid.value)]) + amount
  {
    match uid
    case None => (db, NoUser)
    case Some(id) =>
      var p := Path(Passengers, id);
      var current := if p in db then Balance(db[p]) else 0.0;
      var newBalance := current + amount;
      var (db', ok) := UpdateDoc(db, p, map[walletBalance := Num(newBalance)], net);
      (db', if ok then ToppedUp(newBalance) else TopUpFailed)
  }

  /**
   * A completed top-up stores the new balance, so a positive amount strictly raises the balance
   * read back; every other field of the document and every other document stay as they were.
   */
  lemma TopUpWritesBalanceOnly(db: Db, id: string, amount: real, net: bool)
    requires TopUp(db, Some(id), amount, net).1.ToppedUp?
    ensures var (db', outcome) := TopUp(db, Some(id), amount, net);
      var p := Path(Passengers, id);
      && p in db'
      && Balance(db'[p]) == outcome.newBalance
      && (amount > 0.0 ==> Balance(db'[p]) > Balance(db[p]))
      && (forall k :: k != walletBalance ==> (k in db'[p] <==> k in db[p]) && (k in db[p] ==> db'[p][k] == db[p][k]))
      && (forall q :: q in db && q != p ==> q in db' && db'[q] == db[q])
  {
    var p := Path(Passengers, id);
    var u := map[walletBalance := Num(Balance(db[p]) + amount)];
    UpdateDocSpec(db, p, u, net);
  }

  /** Two completed top-ups add both amounts. */
  lemma TopUpsAdd(db: Db, id: string, a: real, b: real, net1: bool, net2: bool)
    requires TopUp(db, Some(id), a, net1).1.ToppedUp?
    ensures var db1 := TopUp(db, Some(id), a, net1).0;
      TopUp(db1, Some(id), b, net2).1.ToppedUp? ==>
        TopUp(db1, Some(id), b, net2).1.newBalance == Balance(db[Path(Passengers, id)]) + a + b
  {
    TopUpWritesBalanceOnly(db, id, a, net1);
  }

  /** The profile screen shows the new balance and the same ride count and rating after a top-up. */
  lemma TopUpSeenOnProfile(db: Db, id: string, amount: real, net: bool)
    requires TopUp(db, Some(id), amount, net).1.ToppedUp?
    ensures var d, d' := db[Path(Passengers, id)], TopUp(db, Some(id), amount, net).0[Path(Passengers, id)];
      PassengerProfile.StatsOf(d') == PassengerProfile.StatsOf(d).(walletBalance := Balance(d) + amount)
  {
    var p := Path(Passengers, id);
    var d := db[p];
    var d' := Merge(d, map[walletBalance := Num(Balance(d) + amount)]);
    assert TopUp(db, Some(id), amount, net).0 == db[p := d'];
    assert GetDouble(d', walletBalance) == Some(Balance(d) + amount);
    assert GetLong(d', totalRides) == GetLong(d, totalRides);
    assert GetDouble(d', rating) == GetDouble(d, rating);
  }
}
