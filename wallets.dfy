/** The wallet table: one wallet per user, with the card it is topped up
    from and a balance that session bookings are paid from. */
module Wallets {
  import opened Common

  datatype Wallet = Wallet(userId: string, cardNumber: string, cardHolder: string, expiry: string, cvv: string, balance: int)

  /** The body of a create-or-update request; `amount` is the value after
      `Number(amount)`. */
  datatype TopUpRequest = TopUpRequest(
    userId: Option<string>, cardNumber: Option<string>, cardHolder: Option<string>,
    expiry: Option<string>, cvv: Option<string>, amount: Option<int>)

  /** The field check of the upsert: every field present and truthy. */
  predicate TopUpComplete(req: TopUpRequest) {
    Present(req.userId) && Present(req.cardNumber) && Present(req.cardHolder)
    && Present(req.expiry) && Present(req.cvv) && NumPresent(req.amount)
  }

  /** The key of the wallet table. */
  function OwnerOf(w: Wallet): string {
    w.userId
  }

  /** `Wallet.findOne({ userId })`: the index of the first wallet of the user. */
  function WalletIndex(ws: seq<Wallet>, userId: string): (r: Option<nat>)
    ensures r.Some? ==> r.value < |ws| && ws[r.value].userId == userId
    ensures r.Some? ==> forall j :: 0 <= j < r.value ==> ws[j].userId != userId
    ensures r.None? <==> forall j :: 0 <= j < |ws| ==> ws[j].userId != userId
  {
    FirstIndex(ws, (w: Wallet) => w.userId == userId)
  }

  /** Every balance in the table is non-negative. */
  predicate Solvent(ws: seq<Wallet>) {
    forall i :: 0 <= i < |ws| ==> ws[i].balance >= 0
  }

  datatype GetWalletOutcome = WalletFound(wallet: Wallet) | WalletNotFound {
    function Status(): int {
      if WalletFound? then 200 else 404
    }
  }

  /** `getWallet`: 404 when the user has no wallet, otherwise that wallet. */
  function GetWallet(ws: seq<Wallet>, userId: string): (r: GetWalletOutcome)
    ensures r.WalletNotFound? <==> forall j :: 0 <= j < |ws| ==> ws[j].userId != userId
    ensures r.WalletFound? ==> r.wallet in ws && r.wallet.userId == userId
    ensures r.Status() == 404 <==> r.WalletNotFound?
  {
    match WalletIndex(ws, userId)
    case None => WalletNotFound
    case Some(i) => WalletFound(ws[i])
  }

  datatype UpsertOutcome = UpsertMissingFields | Saved(wallet: Wallet) {
    function Status(): int {
      if Saved? then 200 else 400
    }
  }

  /** The wallet table, with the two handlers that change it. */
  class WalletStore {
    var wallets: seq<Wallet>

    /** No user has two wallets. */
    ghost predicate Valid()
      reads this
    {
      UniqueKeys(wallets, OwnerOf)
    }

    constructor ()
      ensures Valid() && wallets == []
    {
      wallets := [];
    }

    /** `createOrUpdateWallet`. A request with a missing field is refused and
        changes nothing. Otherwise the user's wallet, when there is one, gets
        the four card fields replaced and its balance raised by exactly the
        amount; when there is none, a new wallet holding the amount is added.
        No other wallet changes and no user gets a second wallet. */
    method CreateOrUpdate(req: TopUpRequest) returns (out: UpsertOutcome)
      requires Valid()
      modifies this
      ensures Valid()
      ensures out.UpsertMissingFields? <==> !TopUpComplete(req)
      ensures out.UpsertMissingFields? ==> wallets == old(wallets)
      ensures out.Saved? ==> out.wallet.userId == req.userId.value && out.wallet in wallets
      ensures out.Saved? ==> out.wallet.cardNumber == req.cardNumber.value && out.wallet.cardHolder == req.cardHolder.value
      ensures out.Saved? ==> out.wallet.expiry == req.expiry.value && out.wallet.cvv == req.cvv.value
      ensures out.Saved? && old(WalletIndex(wallets, req.userId.value)).Some? ==>
        var i := old(WalletIndex(wallets, req.userId.value)).value;
        out.wallet.balance == old(wallets[i].balance) + req.amount.value
        && wallets == old(wallets)[i := out.wallet]
      ensures out.Saved? && old(WalletIndex(wallets, req.userId.value)).None? ==>
        out.wallet.balance == req.amount.value && wallets == old(wallets) + [out.wallet]
      ensures forall j :: 0 <= j < |old(wallets)| && old(wallets[j].userId) != OrElse(req.userId, "") ==> old(wallets[j]) in wallets
      ensures old(Solvent(wallets)) && NumPresent(req.amount) && req.amount.value > 0 ==> Solvent(wallets)
    {
      if !TopUpComplete(req) {
        return UpsertMissingFields;
      }
      var userId := req.userId.value;
      match WalletIndex(wallets, userId)
      case Some(i) =>
        var w := wallets[i];
        w := w.(cardNumber := req.cardNumber.value, cardHolder := req.cardHolder.value,
                expiry := req.expiry.value, cvv := req.cvv.value);
        w := w.(balance := w.balance + req.amount.value);
        ReplaceAtKey(wallets, OwnerOf, i, w);
        wallets := wallets[i := w];
        assert wallets[i] == w;
        assert forall j :: 0 <= j < |old(wallets)| && j != i ==> wallets[j] == old(wallets[j]);
        out := Saved(w);
      case None =>
        var w := Wallet(userId, req.cardNumber.value, req.cardHolder.value, req.expiry.value, req.cvv.value, req.amount.value);
        wallets := wallets + [w];
        assert wallets[|wallets| - 1] == w;
        assert forall j :: 0 <= j < |old(wallets)| ==> wallets[j] == old(wallets[j]);
        out := Saved(w);
    }

    /** `wallet.balance -= price` on the wallet at index `i`. */
    method Debit(i: nat, price: int)
      requires Valid() && i < |wallets|
      modifies this
      ensures Valid()
      ensures wallets == old(wallets)[i := old(wallets[i]).(balance := old(wallets[i].balance) - price)]
    {
      var w := wallets[i].(balance := wallets[i].balance - price);
      ReplaceAtKey(wallets, OwnerOf, i, w);
      wallets := wallets[i := w];
    }
  }
}
