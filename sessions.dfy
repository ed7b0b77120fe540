/** Paid consultation sessions: booking (which debits the requester's
    wallet), acceptance by the receiver, removal, the accepted and pending
    listings, and the lookup the messaging gate uses. */
module Sessions {
  import opened Common
  import opened Wallets

  datatype Session = Session(
    id: nat, requesterId: string, receiverId: string, date: string, time: string,
    note: Option<string>, price: int, isAccepted: bool, isPaid: bool, createdAt: int)

  /** The body of a booking request. */
  datatype SessionRequest = SessionRequest(
    requesterId: Option<string>, receiverId: Option<string>, date: Option<string>,
    time: Option<string>, note: Option<string>, price: Option<int>)

  /** The field check of `createSession`: requester, receiver, date, time and
      price present and truthy (the note is optional). */
  predicate BookingComplete(req: SessionRequest) {
    Present(req.requesterId) && Present(req.receiverId) && Present(req.date)
    && Present(req.time) && NumPresent(req.price)
  }

  /** The key of the session table. */
  function SessionId(s: Session): nat {
    s.id
  }

  /** `s` is accepted and is between `a` and `b`, in either role. */
  predicate AcceptedBetween(s: Session, a: string, b: string) {
    s.isAccepted && ((s.requesterId == a && s.receiverId == b) || (s.requesterId == b && s.receiverId == a))
  }

  /** `Session.findOne({ isAccepted: true, $or: [{a, b}, {b, a}] })`: the first
      accepted session between the two users, in store order. */
  function FindAcceptedSession(ss: seq<Session>, a: string, b: string): (r: Option<Session>)
    ensures r.Some? ==> r.value in ss && AcceptedBetween(r.value, a, b)
    ensures r.None? <==> forall i :: 0 <= i < |ss| ==> !AcceptedBetween(ss[i], a, b)
    ensures r.Some? ==> exists i :: 0 <= i < |ss| && ss[i] == r.value && forall j :: 0 <= j < i ==> !AcceptedBetween(ss[j], a, b)
  {
    if ss == [] then None
    else if AcceptedBetween(ss[0], a, b) then Some(ss[0])
    else
      var r := FindAcceptedSession(ss[1..], a, b);
      assert r.Some? ==> exists i :: 0 < i < |ss| && ss[i] == r.value && forall j :: 0 <= j < i ==> !AcceptedBetween(ss[j], a, b) by {
        if r.Some? {
          var k :| 0 <= k < |ss[1..]| && ss[1..][k] == r.value && forall j :: 0 <= j < k ==> !AcceptedBetween(ss[1..][j], a, b);
          assert ss[k + 1] == r.value;
          assert forall j :: 0 <= j < k + 1 ==> !AcceptedBetween(ss[j], a, b) by {
            forall j | 0 <= j < k + 1 ensures !AcceptedBetween(ss[j], a, b) {
              if j > 0 { assert ss[j] == ss[1..][j - 1]; }
            }
          }
        }
      }
      r
  }

  /** The lookup does not depend on which of the two users is the sender. */
  lemma {:induction false} FindAcceptedSessionSymmetric(ss: seq<Session>, a: string, b: string)
    ensures FindAcceptedSession(ss, a, b) == FindAcceptedSession(ss, b, a)
  {
    if ss != [] {
      FindAcceptedSessionSymmetric(ss[1..], a, b);
    }
  }

  /** The balance check and debit of a booking: refused when the balance is
      below the price, otherwise the balance less the price. A balance that
      passes the check never goes negative. */
  function Charge(balance: int, price: int): (r: Option<int>)
    ensures r.None? <==> balance < price
    ensures r.Some? ==> r.value == balance - price && r.value >= 0
  {
    if balance < price then None else Some(balance - price)
  }

  /** Which of a series of bookings against one wallet succeed, in order. */
  function Outcomes(balance: int, prices: seq<int>): (oks: seq<bool>)
    ensures |oks| == |prices|
    decreases prices
  {
    if prices == [] then []
    else match Charge(balance, prices[0])
      case None => [false] + Outcomes(balance, prices[1..])
      case Some(b) => [true] + Outcomes(b, prices[1..])
  }

  /** The balance after a series of bookings against one wallet. */
  function Replay(balance: int, prices: seq<int>): int
    decreases prices
  {
    if prices == [] then balance
    else match Charge(balance, prices[0])
      case None => Replay(balance, prices[1..])
      case Some(b) => Replay(b, prices[1..])
  }

  /** The sum of the prices whose booking succeeded. */
  function PaidTotal(prices: seq<int>, oks: seq<bool>): int
    requires |oks| == |prices|
  {
    if prices == [] then 0 else (if oks[0] then prices[0] else 0) + PaidTotal(prices[1..], oks[1..])
  }

  /** Bookings made one after another against a wallet holding `balance`
      never drive it negative, and leave it at the start balance less the
      prices of the bookings that succeeded. */
  lemma {:induction false} ReplayAccounting(balance: int, prices: seq<int>)
    requires balance >= 0
    ensures Replay(balance, prices) >= 0
    ensures Replay(balance, prices) == balance - PaidTotal(prices, Outcomes(balance, prices))
    decreases prices
  {
    if prices != [] {
      match Charge(balance, prices[0])
      case None =>
        ReplayAccounting(balance, prices[1..]);
      case Some(b) =>
        ReplayAccounting(b, prices[1..]);
    }
  }

  /** The user has a wallet whose balance covers the price. */
  predicate CanPay(ws: seq<Wallet>, userId: string, price: int) {
    match WalletIndex(ws, userId)
    case None => false
    case Some(i) => Charge(ws[i].balance, price).Some?
  }

  /** How MongoDB's `$gte` orders two string values: byte by byte in UTF-8,
      which is code point by code point, a proper prefix first. (JavaScript's
      own `<` compares UTF-16 code units and differs above U+FFFF.) */
  predicate LexLessEq(a: string, b: string) {
    a == [] || (b != [] && (a[0] < b[0] || (a[0] == b[0] && LexLessEq(a[1..], b[1..]))))
  }

  /** The string order is total. */
  lemma {:induction false} LexLessEqTotal(a: string, b: string)
    ensures LexLessEq(a, b) || LexLessEq(b, a)
  {
    if a != [] && b != [] && a[0] == b[0] {
      LexLessEqTotal(a[1..], b[1..]);
    }
  }

  /** The string order is reflexive. */
  lemma {:induction false} LexLessEqReflexive(a: string)
    ensures LexLessEq(a, a)
  {
    if a != [] {
      LexLessEqReflexive(a[1..]);
    }
  }

  /** The string order is transitive. */
  lemma {:induction false} LexLessEqTransitive(a: string, b: string, c: string)
    requires LexLessEq(a, b) && LexLessEq(b, c)
    ensures LexLessEq(a, c)
  {
    if a != [] && a[0] == b[0] && b[0] == c[0] {
      LexLessEqTransitive(a[1..], b[1..], c[1..]);
    }
  }

  /** The session involves the user and its date string is not before today's. */
  predicate Upcoming(s: Session, userId: string, today: string) {
    (s.requesterId == userId || s.receiverId == userId) && LexLessEq(today, s.date)
  }

  /** `getAcceptedSessions`: exactly the accepted sessions where the user is
      either party, dated today or later. */
  function AcceptedSessions(ss: seq<Session>, userId: string, today: string): (r: seq<Session>)
    ensures forall i :: 0 <= i < |r| ==> r[i] in ss && r[i].isAccepted && Upcoming(r[i], userId, today)
    ensures forall i :: 0 <= i < |ss| && ss[i].isAccepted && Upcoming(ss[i], userId, today) ==> ss[i] in r
    ensures forall x :: multiset(r)[x] == if x.isAccepted && Upcoming(x, userId, today) then multiset(ss)[x] else 0
  {
    Filter(ss, (s: Session) => s.isAccepted && Upcoming(s, userId, today))
  }

  /** `getPendingSessions`: exactly the not yet accepted sessions where the
      user is either party, dated today or later. */
  function PendingSessions(ss: seq<Session>, userId: string, today: string): (r: seq<Session>)
    ensures forall i :: 0 <= i < |r| ==> r[i] in ss && !r[i].isAccepted && Upcoming(r[i], userId, today)
    ensures forall i :: 0 <= i < |ss| && !ss[i].isAccepted && Upcoming(ss[i], userId, today) ==> ss[i] in r
    ensures forall x :: multiset(r)[x] == if !x.isAccepted && Upcoming(x, userId, today) then multiset(ss)[x] else 0
  {
    Filter(ss, (s: Session) => !s.isAccepted && Upcoming(s, userId, today))
  }

  /** Every upcoming session of a user is in exactly one of the two listings. */
  lemma ListingsPartition(ss: seq<Session>, userId: string, today: string, i: nat)
    requires i < |ss| && Upcoming(ss[i], userId, today)
    ensures ss[i] in AcceptedSessions(ss, userId, today) <==> ss[i] !in PendingSessions(ss, userId, today)
  {
  }

  /** A session of the user that neither listing shows is one whose date is
      strictly before today. */
  lemma UnlistedIsPast(ss: seq<Session>, userId: string, today: string, i: nat)
    requires i < |ss| && (ss[i].requesterId == userId || ss[i].receiverId == userId)
    requires ss[i] !in AcceptedSessions(ss, userId, today) && ss[i] !in PendingSessions(ss, userId, today)
    ensures LexLessEq(ss[i].date, today) && ss[i].date != today
  {
    LexLessEqTotal(today, ss[i].date);
    LexLessEqReflexive(today);
  }

  /** As the day advances the listings only lose sessions: what is listed on
      a later day was listed on every earlier one. */
  lemma ListingsShrink(ss: seq<Session>, userId: string, earlier: string, later: string, s: Session)
    requires LexLessEq(earlier, later)
    ensures s in AcceptedSessions(ss, userId, later) ==> s in AcceptedSessions(ss, userId, earlier)
    ensures s in PendingSessions(ss, userId, later) ==> s in PendingSessions(ss, userId, earlier)
  {
    if s in AcceptedSessions(ss, userId, later) || s in PendingSessions(ss, userId, later) {
      var k :| 0 <= k < |ss| && ss[k] == s;
      LexLessEqTransitive(earlier, later, s.date);
    }
  }

  datatype CreateOutcome = BookingMissingFields | InsufficientBalance | Booked(session: Session, wallet: Wallet) {
    function Status(): int {
      if Booked? then 201 else 400
    }
  }

  datatype AcceptOutcome = AcceptNotFound | Accepted(session: Session) {
    function Status(): int {
      if Accepted? then 200 else 404
    }
  }

  datatype RemoveOutcome = RemoveNotFound | Removed {
    function Status(): int {
      if Removed? then 200 else 404
    }
  }

  /** `findById`: the index of the session with the given id. */
  function SessionIndex(ss: seq<Session>, id: nat): (r: Option<nat>)
    ensures r.Some? ==> r.value < |ss| && ss[r.value].id == id
    ensures r.None? <==> forall j :: 0 <= j < |ss| ==> ss[j].id != id
  {
    FirstIndex(ss, (s: Session) => s.id == id)
  }

  /** The session table; `nextId` stands for the store's id generator. */
  class SessionStore {
    var sessions: seq<Session>
    var nextId: nat

    /** Ids are unique and every id was handed out before `nextId`. */
    ghost predicate Valid()
      reads this
    {
      UniqueKeys(sessions, SessionId) && forall i :: 0 <= i < |sessions| ==> sessions[i].id < nextId
    }

    constructor ()
      ensures Valid() && sessions == []
    {
      sessions := [];
      nextId := 0;
    }

    /** `new Session({...}).save()`: appends the session under a fresh id. */
    method Insert(s: Session) returns (stored: Session)
      requires Valid()
      modifies this
      ensures Valid()
      ensures stored == s.(id := old(nextId))
      ensures sessions == old(sessions) + [stored] && nextId == old(nextId) + 1
    {
      stored := s.(id := nextId);
      sessions := sessions + [stored];
      nextId := nextId + 1;
    }

    /** `acceptSession`: 404 when no session has the id; otherwise that session
        gets `isAccepted = true` and nothing else changes. Accepting an
        accepted session changes nothing. */
    method Accept(id: nat) returns (out: AcceptOutcome)
      requires Valid()
      modifies this
      ensures Valid() && nextId == old(nextId)
      ensures out.AcceptNotFound? <==> old(SessionIndex(sessions, id)).None?
      ensures out.AcceptNotFound? ==> sessions == old(sessions)
      ensures out.Accepted? ==>
        var i := old(SessionIndex(sessions, id)).value;
        out.session == old(sessions)[i].(isAccepted := true) && sessions == old(sessions)[i := out.session]
      ensures out.Accepted? && old(sessions)[old(SessionIndex(sessions, id)).value].isAccepted ==> sessions == old(sessions)
    {
      match SessionIndex(sessions, id)
      case None =>
        out := AcceptNotFound;
      case Some(i) =>
        var s := sessions[i].(isAccepted := true);
        ReplaceAtKey(sessions, SessionId, i, s);
        sessions := sessions[i := s];
        out := Accepted(s);
    }

    /** `removeSession`: 404 when no session has the id; otherwise exactly that
        session is deleted. */
    method Remove(id: nat) returns (out: RemoveOutcome)
      requires Valid()
      modifies this
      ensures Valid() && nextId == old(nextId)
      ensures out.RemoveNotFound? <==> old(SessionIndex(sessions, id)).None?
      ensures out.RemoveNotFound? ==> sessions == old(sessions)
      ensures out.Removed? ==>
        var i := old(SessionIndex(sessions, id)).value;
        sessions == old(sessions)[..i] + old(sessions)[i + 1..]
      ensures forall s :: s in sessions <==> s in old(sessions) && s.id != id
    {
      match SessionIndex(sessions, id)
      case None =>
        out := RemoveNotFound;
      case Some(i) =>
        RemoveAtKey(sessions, SessionId, i);
        sessions := sessions[..i] + sessions[i + 1..];
        out := Removed;
    }
  }

  /** `createSession`. A request with a missing field, or whose requester has
      no wallet or too small a balance, is refused with 400 and changes
      nothing. Otherwise one session is added, paid and not yet accepted, and
      the requester's balance drops by exactly the price, staying >= 0; no
      other wallet changes. Both writes are one atomic step here. */
  method CreateSession(store: SessionStore, wallets: WalletStore, req: SessionRequest, now: int) returns (out: CreateOutcome)
    requires store.Valid() && wallets.Valid()
    modifies store, wallets
    ensures store.Valid() && wallets.Valid()
    ensures out.BookingMissingFields? <==> !BookingComplete(req)
    ensures out.InsufficientBalance? <==> BookingComplete(req) && !old(CanPay(wallets.wallets, req.requesterId.value, req.price.value))
    ensures !out.Booked? ==>
      store.sessions == old(store.sessions) && store.nextId == old(store.nextId) && wallets.wallets == old(wallets.wallets)
    ensures out.Booked? ==>
      && out.session.id == old(store.nextId)
      && out.session.requesterId == req.requesterId.value && out.session.receiverId == req.receiverId.value
      && out.session.date == req.date.value && out.session.time == req.time.value
      && out.session.note == req.note && out.session.price == req.price.value && out.session.createdAt == now
      && out.session.isPaid && !out.session.isAccepted
      && store.sessions == old(store.sessions) + [out.session]
    ensures out.Booked? ==>
      var i := old(WalletIndex(wallets.wallets, req.requesterId.value)).value;
      && out.wallet == old(wallets.wallets)[i].(balance := old(wallets.wallets)[i].balance - req.price.value)
      && out.wallet.balance >= 0
      && wallets.wallets == old(wallets.wallets)[i := out.wallet]
  {
    if !BookingComplete(req) {
      return BookingMissingFields;
    }
    var requesterId, price := req.requesterId.value, req.price.value;
    var found := WalletIndex(wallets.wallets, requesterId);
    if found.None? || wallets.wallets[found.value].balance < price {
      return InsufficientBalance;
    }
    var i := found.value;
    var draft := Session(0, requesterId, req.receiverId.value, req.date.value, req.time.value, req.note, price, false, true, now);
    var session := store.Insert(draft);
    wallets.Debit(i, price);
    out := Booked(session, wallets.wallets[i]);
  }

  /** A 50-unit wallet cannot book a 60-unit session: the booking is refused
      and the balance stays at 50. */
  method InsufficientBalanceScenario(user: string, other: string) returns (status: int, balance: int, booked: nat)
    requires user != "" && other != ""
    ensures status == 400 && balance == 50 && booked == 0
  {
    var store := new SessionStore();
    var wallets := new WalletStore();
    var topUp := wallets.CreateOrUpdate(TopUpRequest(Some(user), Some("4242"), Some("holder"), Some("12/30"), Some("123"), Some(50)));
    assert wallets.wallets == [topUp.wallet];
    var out := CreateSession(store, wallets, SessionRequest(Some(user), Some(other), Some("2024-06-01"), Some("10:00"), None, Some(60)), 0);
    status, balance, booked := out.Status(), wallets.wallets[0].balance, |store.sessions|;
  }
}
