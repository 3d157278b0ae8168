// Trading between two players (playerRequestTrade, internalStartTrade, playerAcceptTrade
// and internalCloseTrade in game.cpp).
module Trade {

  import opened Barter
  import Inventory
  import opened Wrappers

  datatype TradeState = Idle | Initiated | Accepting | Acknowledged | Transferring

  type PlayerId = nat

  class Item {
    const id: nat
    var references: int // the references that trading has taken

    constructor (id: nat)
      ensures this.id == id && references == 0
    {
      this.id := id;
      references := 0;
    }
  }

  // ---------- The trading desk as a value ----------

  datatype Trader = Trader(state: TradeState, partner: Option<PlayerId>, offer: Option<Item>)

  const IDLE := Trader(Idle, None, None)

  // An item, or a part of it, has changed hands.
  datatype Move = Move(item: Item, from: PlayerId, to: PlayerId, whole: bool)

  datatype Desk = Desk(
    traders: map<PlayerId, Trader>,
    offers: map<Item, PlayerId>, // tradeItems
    held: map<Item, int>, // references taken
    toRelease: seq<Item>, // ToReleaseItems
    moves: seq<Move>) // history: items that have changed hands

  // Which items lie inside which containers, at any depth
  type Nesting = set<(Item, Item)>

  // What the rest of the game answers while a trade is being accepted: whether the
  // partner is in reach, whether the scripts agree, and what the two carry.
  datatype Answers = Answers(reachable: bool, agreed: bool, deal: Deal)

  function Drop(d: Desk, offer: Option<Item>): Desk {
    if offer.Some? && offer.value in d.offers then
      d.(offers := d.offers - {offer.value}, toRelease := d.toRelease + [offer.value])
    else d
  }

  // internalStartTrade refuses
  predicate Refuses(d: Desk, p: PlayerId, q: PlayerId)
    requires p in d.traders && q in d.traders
  {
    var a, b := d.traders[p], d.traders[q];
    (a.state != Idle && !(a.state == Acknowledged && a.partner == Some(q))) ||
    (b.state != Idle && b.partner != Some(p))
  }

  // The item is on offer; the partner is yet to be told.
  function Offered(d: Desk, p: PlayerId, q: PlayerId, item: Item): Desk
    requires p in d.traders && item in d.held
  {
    d.(traders := d.traders[p := Trader(Initiated, Some(q), Some(item))],
       held := d.held[item := d.held[item] + 1], offers := d.offers[item := p])
  }

  function Start(d: Desk, p: PlayerId, q: PlayerId, item: Item): Desk
    requires p in d.traders && q in d.traders && item in d.held
  {
    if Refuses(d, p, q) then d
    else
      var v := Offered(d, p, q, item);
      if v.traders[q].state != Idle then v
      else v.(traders := v.traders[q := v.traders[q].(state := Acknowledged, partner := Some(p))])
  }

  lemma StartIs(d: Desk, p: PlayerId, q: PlayerId, item: Item)
    requires p in d.traders && q in d.traders && item in d.held && !Refuses(d, p, q)
    ensures var v := Offered(d, p, q, item);
      Start(d, p, q, item) ==
      if v.traders[q].state != Idle then v
      else v.(traders := v.traders[q := v.traders[q].(state := Acknowledged, partner := Some(p))])
  {
  }

  function Close(d: Desk, p: PlayerId): Desk
    requires p in d.traders && (d.traders[p].partner.Some? ==> d.traders[p].partner.value in d.traders)
  {
    var t := d.traders[p];
    if t.state == Transferring || (t.partner.Some? && d.traders[t.partner.value].state == Transferring) then d
    else
      var v := Drop(d, t.offer).(traders := d.traders[p := IDLE]);
      match t.partner
      case None => v
      case Some(q) => Drop(v, v.traders[q].offer).(traders := v.traders[q := IDLE])
  }

  // Both have accepted and the scripts agree; `more` is what changes hands.
  function Exchange(d: Desk, p: PlayerId, q: PlayerId, more: seq<Move>): Desk
    requires p in d.traders && q in d.traders
  {
    var mine, yours := d.traders[p].offer, d.traders[q].offer;
    var v := Drop(Drop(d, mine), yours);
    v.(traders := d.traders[p := IDLE][q := IDLE], moves := d.moves + more)
  }

  // What changes hands, given what the two carry
  function Moves(mine: Option<Item>, yours: Option<Item>, p: PlayerId, q: PlayerId, deal: Deal): seq<Move> {
    if mine.None? || yours.None? then []
    else
      var r := Swap(deal);
      (if r.first > 0 then [Move(mine.value, p, q, r.first == deal.mine.item.count)] else []) +
      (if r.second > 0 then [Move(yours.value, q, p, r.second == deal.yours.item.count)] else [])
  }

  // What follows once p has accepted
  function Settled(d: Desk, p: PlayerId, q: PlayerId, o: Answers): Desk
    requires p in d.traders && q in d.traders && (d.traders[p].partner.Some? ==> d.traders[p].partner.value == q)
  {
    if d.traders[q].state != Accepting then d
    else if !o.agreed then Close(d, p)
    else Exchange(d, p, q, Moves(d.traders[p].offer, d.traders[q].offer, p, q, o.deal))
  }

  function Accept(d: Desk, p: PlayerId, o: Answers): Desk
    requires p in d.traders ==> (d.traders[p].partner.Some? ==> d.traders[p].partner.value in d.traders)
  {
    if p !in d.traders then d
    else
      var t := d.traders[p];
      if (t.state != Acknowledged && t.state != Initiated) || t.partner == None || !o.reachable then d
      else
        Settled(d.(traders := d.traders[p := t.(state := Accepting)]), p, t.partner.value, o)
  }

  // cleanup
  function Release(d: Desk): Desk {
    d.(held := map i | i in d.held :: d.held[i] - Count(d.toRelease, i), toRelease := [])
  }

  function Count(s: seq<Item>, i: Item): nat {
    if s == [] then 0 else (if s[0] == i then 1 else 0) + Count(s[1..], i)
  }

  // ---------- The invariant ----------

  predicate TraderFits(d: Desk, p: PlayerId)
    requires p in d.traders
  {
    var t := d.traders[p];
    (t.state == Idle <==> t.partner == None) && t.state != Transferring &&
    (t.state == Idle || t.state == Acknowledged ==> t.offer == None) &&
    (t.state == Initiated ==> t.offer.Some?) &&
    (t.offer.Some? ==> t.offer.value in d.offers && d.offers[t.offer.value] == p) &&
    (t.partner.Some? ==>
    var q := t.partner.value;
    q != p && q in d.traders && d.traders[q].partner == Some(p) &&
    !(t.state == Accepting && d.traders[q].state == Accepting) &&
    (t.offer.Some? || d.traders[q].offer.Some?))
  }

  predicate OfferFits(d: Desk, i: Item)
    requires i in d.offers
  {
    i in d.held && d.offers[i] in d.traders && d.traders[d.offers[i]].offer == Some(i)
  }

  predicate HeldFits(d: Desk, i: Item)
    requires i in d.held
  {
    d.held[i] == (if i in d.offers then 1 else 0) + Count(d.toRelease, i)
  }

  ghost predicate Inv(d: Desk) {
    (forall p | p in d.traders :: TraderFits(d, p)) &&
    (forall i | i in d.offers :: OfferFits(d, i)) &&
    (forall i | i in d.held :: HeldFits(d, i))
  }

  // No two offers are nested in one another.
  predicate OffersApart(d: Desk, inside: Nesting) {
    forall i, j | i in d.offers && j in d.offers :: (i, j) !in inside
  }

  lemma {:induction false} CountAppend(s: seq<Item>, x: Item, i: Item)
    ensures Count(s + [x], i) == Count(s, i) + if i == x then 1 else 0
  {
    if s == [] {
      assert s + [x] == [x];
    } else {
      assert (s + [x])[1..] == s[1..] + [x];
      CountAppend(s[1..], x, i);
    }
  }

  // Dropping an offer turns the reference it held into a release still to be carried out.
  lemma DropHeld(d: Desk, offer: Option<Item>, i: Item)
    requires i in d.held && HeldFits(d, i)
    ensures HeldFits(Drop(d, offer), i)
  {
    if offer.Some? {
      CountAppend(d.toRelease, offer.value, i);
    }
  }

  lemma DropBothHeld(d: Desk, a: Option<Item>, b: Option<Item>)
    requires Inv(d)
    ensures forall i | i in d.held :: HeldFits(Drop(Drop(d, a), b), i)
  {
    forall i | i in d.held
      ensures HeldFits(Drop(Drop(d, a), b), i)
    {
      DropHeld(d, a, i);
      DropHeld(Drop(d, a), b, i);
    }
  }

  // What is left of a pair's trade: nothing.
  ghost predicate Parted(d: Desk, v: Desk, p: PlayerId, q: PlayerId)
    requires p in d.traders && q in d.traders
  {
    v.traders == d.traders[p := IDLE][q := IDLE] && v.held == d.held &&
    (forall i | i in d.offers ::
      (i in v.offers <==> Some(i) != d.traders[p].offer && Some(i) != d.traders[q].offer)) &&
    (forall i | i in v.offers :: i in d.offers && v.offers[i] == d.offers[i])
  }

  ghost predicate Linked(d: Desk, p: PlayerId, q: PlayerId) {
    p != q && p in d.traders && q in d.traders && d.traders[p].partner == Some(q) && d.traders[q].partner == Some(p)
  }

  lemma PartingKeepsOffers(d: Desk, v: Desk, p: PlayerId, q: PlayerId)
    requires Inv(d) && Linked(d, p, q) && Parted(d, v, p, q)
    ensures forall i | i in v.offers :: OfferFits(v, i)
  {
    forall i | i in v.offers
      ensures OfferFits(v, i)
    {
      assert OfferFits(d, i);
    }
  }

  lemma PartingKeepsTraders(d: Desk, v: Desk, p: PlayerId, q: PlayerId)
    requires Inv(d) && Linked(d, p, q) && Parted(d, v, p, q)
    ensures forall r | r in v.traders :: TraderFits(v, r)
  {
    forall r | r in v.traders
      ensures TraderFits(v, r)
    {
      if r != p && r != q {
        assert TraderFits(d, r) && TraderFits(d, p) && TraderFits(d, q);
      }
    }
  }

  lemma CloseIdle(d: Desk, p: PlayerId)
    requires Inv(d) && p in d.traders && d.traders[p].partner == None
    ensures Close(d, p) == d
  {
    assert TraderFits(d, p);
    assert d.traders[p := IDLE] == d.traders;
  }

  lemma ClosePair(d: Desk, p: PlayerId, q: PlayerId)
    requires Inv(d) && Linked(d, p, q)
    ensures Parted(d, Close(d, p), p, q) && Close(d, p).moves == d.moves
    ensures Close(d, p).toRelease == Drop(Drop(d, d.traders[p].offer), d.traders[q].offer).toRelease
    ensures Close(d, p).offers == Drop(Drop(d, d.traders[p].offer), d.traders[q].offer).offers
  {
    ClosePairIs(d, p, q);
    DropBothOffers(d, d.traders[p].offer, d.traders[q].offer);
  }

  // Both offers are dropped, and both traders are idle.
  lemma ClosePairIs(d: Desk, p: PlayerId, q: PlayerId)
    requires Inv(d) && Linked(d, p, q)
    ensures Close(d, p) ==
      Drop(Drop(d, d.traders[p].offer), d.traders[q].offer).(traders := d.traders[p := IDLE][q := IDLE])
  {
    assert TraderFits(d, p) && TraderFits(d, q);
  }

  lemma DropBothOffers(d: Desk, a: Option<Item>, b: Option<Item>)
    ensures var v := Drop(Drop(d, a), b);
      v.traders == d.traders && v.held == d.held && v.moves == d.moves &&
      (forall i | i in d.offers :: i in v.offers <==> Some(i) != a && Some(i) != b) &&
      (forall i | i in v.offers :: i in d.offers && v.offers[i] == d.offers[i])
  {
  }

  // While items are changing hands, closing does nothing.
  lemma CloseWaits(d: Desk, p: PlayerId)
    requires p in d.traders && (d.traders[p].partner.Some? ==> d.traders[p].partner.value in d.traders)
    requires d.traders[p].state == Transferring ||
      (d.traders[p].partner.Some? && d.traders[d.traders[p].partner.value].state == Transferring)
    ensures Close(d, p) == d
  {
  }

  lemma CloseKeepsInv(d: Desk, p: PlayerId)
    requires Inv(d) && p in d.traders
    ensures Inv(Close(d, p))
  {
    assert TraderFits(d, p);
    if d.traders[p].partner == None {
      CloseIdle(d, p);
    } else {
      var q := d.traders[p].partner.value;
      var v := Close(d, p);
      ClosePair(d, p, q);
      PartingKeepsOffers(d, v, p, q);
      PartingKeepsTraders(d, v, p, q);
      DropBothHeld(d, d.traders[p].offer, d.traders[q].offer);
      forall i | i in v.held
        ensures HeldFits(v, i)
      {
        assert HeldFits(Drop(Drop(d, d.traders[p].offer), d.traders[q].offer), i);
      }
    }
  }

  lemma PartedOffers(d: Desk, v: Desk, u: Desk, p: PlayerId, q: PlayerId)
    requires Linked(d, p, q) && Parted(d, v, p, q) && Parted(d, u, q, p)
    ensures v.traders == u.traders && v.offers == u.offers && v.held == u.held
  {
    assert v.traders == u.traders;
    assert v.offers.Keys == u.offers.Keys;
  }

  // Both sides of a trade can close it, with the same effect.
  lemma CloseFromEitherSide(d: Desk, p: PlayerId, q: PlayerId)
    requires Inv(d) && Linked(d, p, q)
    ensures var v, u := Close(d, p), Close(d, q);
      v.traders == u.traders && v.offers == u.offers && v.held == u.held && v.moves == u.moves
    ensures forall i :: Count(Close(d, p).toRelease, i) == Count(Close(d, q).toRelease, i)
  {
    ClosePair(d, p, q);
    ClosePair(d, q, p);
    PartedOffers(d, Close(d, p), Close(d, q), p, q);
    forall i
      ensures Count(Close(d, p).toRelease, i) == Count(Close(d, q).toRelease, i)
    {
      DropBothCount(d, d.traders[p].offer, d.traders[q].offer, i);
      DropBothCount(d, d.traders[q].offer, d.traders[p].offer, i);
    }
  }

  lemma DropBothCount(d: Desk, a: Option<Item>, b: Option<Item>, i: Item)
    ensures Count(Drop(Drop(d, a), b).toRelease, i) ==
      Count(d.toRelease, i) + if i in d.offers && (a == Some(i) || b == Some(i)) then 1 else 0
  {
    if a.Some? {
      CountAppend(d.toRelease, a.value, i);
    }
    if b.Some? {
      CountAppend(Drop(d, a).toRelease, b.value, i);
    }
  }

  // ---------- Starting ----------

  // What internalStartTrade asks of its callers: a partner who is someone else, and an
  // item that nobody is offering.
  predicate MayStart(d: Desk, p: PlayerId, q: PlayerId, item: Item) {
    p in d.traders && q in d.traders && item in d.held && p != q && item !in d.offers
  }

  lemma StartedTraders(d: Desk, p: PlayerId, q: PlayerId, item: Item)
    requires Inv(d) && MayStart(d, p, q, item) && !Refuses(d, p, q)
    ensures forall r | r in d.traders :: TraderFits(Start(d, p, q, item), r)
  {
    forall r | r in d.traders
      ensures TraderFits(Start(d, p, q, item), r)
    {
      assert TraderFits(d, r) && TraderFits(d, p) && TraderFits(d, q);
    }
  }

  lemma StartKeepsInv(d: Desk, p: PlayerId, q: PlayerId, item: Item)
    requires Inv(d) && MayStart(d, p, q, item)
    ensures Inv(Start(d, p, q, item))
  {
    if !Refuses(d, p, q) {
      StartedTraders(d, p, q, item);
      StartedOffers(d, p, q, item);
    }
  }

  lemma StartedOffers(d: Desk, p: PlayerId, q: PlayerId, item: Item)
    requires Inv(d) && MayStart(d, p, q, item) && !Refuses(d, p, q)
    ensures var v := Start(d, p, q, item);
      (forall i | i in v.offers :: OfferFits(v, i)) && (forall i | i in v.held :: HeldFits(v, i))
  {
    var v := Start(d, p, q, item);
    assert TraderFits(d, p) && TraderFits(d, q);
    forall i | i in v.offers
      ensures OfferFits(v, i)
    {
      if i != item {
        assert OfferFits(d, i);
      }
    }
    forall i | i in v.held
      ensures HeldFits(v, i)
    {
      assert HeldFits(d, i);
    }
  }

  // The guards of playerRequestTrade are the ones that are needed: short of refusing, a
  // start keeps the invariant exactly when the partner is someone else and the item is
  // not yet on offer.
  lemma StartKeepsInvExactly(d: Desk, p: PlayerId, q: PlayerId, item: Item)
    requires Inv(d) && p in d.traders && q in d.traders && item in d.held
    ensures Inv(Start(d, p, q, item)) <==> Start(d, p, q, item) == d || (p != q && item !in d.offers)
  {
    var v := Start(d, p, q, item);
    if !Refuses(d, p, q) {
      assert v.held[item] == d.held[item] + 1;
      if p == q {
        assert !TraderFits(v, p);
      } else if item in d.offers {
        assert HeldFits(d, item);
        assert v.held[item] == d.held[item] + 1 && item in v.offers && v.toRelease == d.toRelease;
        assert !HeldFits(v, item);
      } else {
        StartKeepsInv(d, p, q, item);
      }
    }
  }

  // A start comes to nothing exactly when the player has offered already, or accepted, or
  // trades with somebody else, or the partner does.
  lemma StartRefusedExactly(d: Desk, p: PlayerId, q: PlayerId, item: Item)
    requires Inv(d) && p in d.traders && q in d.traders && item in d.held
    ensures var a, b := d.traders[p], d.traders[q];
      Start(d, p, q, item) == d <==>
      a.offer.Some? || a.state == Accepting || (a.partner.Some? && a.partner != Some(q)) ||
      (b.partner.Some? && b.partner != Some(p))
  {
    assert TraderFits(d, p) && TraderFits(d, q);
    if Start(d, p, q, item) == d {
      assert Start(d, p, q, item).held[item] == d.held[item];
    }
  }

  // Closing a trade that has just been started puts everybody and everything back; the
  // reference taken is on its way to being released.
  lemma CloseUndoesStart(d: Desk, p: PlayerId, q: PlayerId, item: Item)
    requires Inv(d) && MayStart(d, p, q, item) && d.traders[p] == IDLE && d.traders[q] == IDLE
    ensures Close(Start(d, p, q, item), p) ==
      d.(held := d.held[item := d.held[item] + 1], toRelease := d.toRelease + [item])
  {
    StartFromIdle(d, p, q, item);
    var v := Start(d, p, q, item);
    CloseLinked(v, p, q, item);
    assert v.traders[p := IDLE][q := IDLE] == d.traders;
    assert d.offers[item := p] - {item} == d.offers;
  }

  lemma CloseLinked(v: Desk, p: PlayerId, q: PlayerId, item: Item)
    requires p in v.traders && q in v.traders && p != q && item in v.offers
    requires v.traders[p] == Trader(Initiated, Some(q), Some(item))
    requires v.traders[q] == Trader(Acknowledged, Some(p), None)
    ensures Close(v, p) ==
      v.(traders := v.traders[p := IDLE][q := IDLE], offers := v.offers - {item}, toRelease := v.toRelease + [item])
  {
  }

  lemma StartFromIdle(d: Desk, p: PlayerId, q: PlayerId, item: Item)
    requires MayStart(d, p, q, item) && d.traders[p] == IDLE && d.traders[q] == IDLE
    ensures Start(d, p, q, item) ==
      d.(traders := d.traders[p := Trader(Initiated, Some(q), Some(item))][q := Trader(Acknowledged, Some(p), None)],
         held := d.held[item := d.held[item] + 1], offers := d.offers[item := p])
  {
  }

  // Once the releases are carried out, nothing tells that there was a trade.
  lemma CloseUndoesStartAtRelease(d: Desk, p: PlayerId, q: PlayerId, item: Item)
    requires Inv(d) && MayStart(d, p, q, item) && d.traders[p] == IDLE && d.traders[q] == IDLE
    ensures Release(Close(Start(d, p, q, item), p)) == Release(d)
  {
    CloseUndoesStart(d, p, q, item);
    ReleaseTakesBack(d, item);
  }

  // One reference more, and one release more, come to nothing.
  lemma ReleaseTakesBack(d: Desk, item: Item)
    requires item in d.held
    ensures Release(d.(held := d.held[item := d.held[item] + 1], toRelease := d.toRelease + [item])) == Release(d)
  {
    var u := d.(held := d.held[item := d.held[item] + 1], toRelease := d.toRelease + [item]);
    forall i | i in d.held
      ensures Release(u).held[i] == Release(d).held[i]
    {
      CountAppend(d.toRelease, item, i);
    }
    assert Release(u).held == Release(d).held;
  }

  // ---------- Accepting ----------

  lemma AcceptAlone(d: Desk, p: PlayerId, q: PlayerId)
    requires Inv(d) && Linked(d, p, q) && d.traders[q].state != Accepting
    ensures Inv(d.(traders := d.traders[p := d.traders[p].(state := Accepting)]))
  {
    var v := d.(traders := d.traders[p := d.traders[p].(state := Accepting)]);
    forall r | r in v.traders
      ensures TraderFits(v, r)
    {
      assert TraderFits(d, r) && TraderFits(d, p) && TraderFits(d, q);
    }
    forall i | i in v.offers
      ensures OfferFits(v, i)
    {
      assert OfferFits(d, i);
    }
    forall i | i in v.held
      ensures HeldFits(v, i)
    {
      assert HeldFits(d, i);
    }
  }

  // Closing does not look at which of the two has accepted.
  lemma CloseAccepted(d: Desk, p: PlayerId, q: PlayerId)
    requires Inv(d) && Linked(d, p, q)
    ensures Close(d.(traders := d.traders[p := d.traders[p].(state := Accepting)]), p) == Close(d, p)
  {
    var v := d.(traders := d.traders[p := d.traders[p].(state := Accepting)]);
    assert TraderFits(d, p) && TraderFits(d, q);
    assert v.traders[p := IDLE][q := IDLE] == d.traders[p := IDLE][q := IDLE];
  }

  lemma ExchangeAfter(d: Desk, p: PlayerId, q: PlayerId, t: Trader, more: seq<Move>)
    requires p in d.traders && q in d.traders && p != q && t.offer == d.traders[p].offer
    ensures Exchange(d.(traders := d.traders[p := t]), p, q, more) ==
      Drop(Drop(d, d.traders[p].offer), d.traders[q].offer).(
        traders := d.traders[p := IDLE][q := IDLE], moves := d.moves + more)
  {
    var v := d.(traders := d.traders[p := t]);
    assert v.traders[p := IDLE][q := IDLE] == d.traders[p := IDLE][q := IDLE];
    DropIgnoresTraders(d, v, d.traders[p].offer, d.traders[q].offer);
  }

  // An exchange parts the two as closing does; only the items' moves tell them apart.
  lemma ExchangeParts(d: Desk, p: PlayerId, q: PlayerId, more: seq<Move>)
    requires Inv(d) && Linked(d, p, q)
    ensures Exchange(d.(traders := d.traders[p := d.traders[p].(state := Accepting)]), p, q, more) ==
      Close(d, p).(moves := d.moves + more)
  {
    ClosePairIs(d, p, q);
    ExchangeAfter(d, p, q, d.traders[p].(state := Accepting), more);
  }

  lemma DropIgnoresTraders(d: Desk, v: Desk, a: Option<Item>, b: Option<Item>)
    requires v == d.(traders := v.traders)
    ensures Drop(Drop(v, a), b) == Drop(Drop(d, a), b).(traders := v.traders)
  {
  }

  lemma AcceptKeepsInv(d: Desk, p: PlayerId, o: Answers)
    requires Inv(d) && (p in d.traders ==> TraderFits(d, p))
    ensures Inv(Accept(d, p, o))
  {
    if p in d.traders && d.traders[p].partner.Some? && o.reachable &&
      (d.traders[p].state == Acknowledged || d.traders[p].state == Initiated)
    {
      var q := d.traders[p].partner.value;
      if d.traders[q].state != Accepting {
        AcceptAlone(d, p, q);
      } else {
        CloseKeepsInv(d, p);
        if o.agreed {
          var more := Moves(d.traders[p].offer, d.traders[q].offer, p, q, o.deal);
          ExchangeParts(d, p, q, more);
          MovesAreFree(Close(d, p), d.moves + more);
        } else {
          CloseAccepted(d, p, q);
        }
      }
    }
  }

  lemma MovesAreFree(d: Desk, moves: seq<Move>)
    requires Inv(d)
    ensures Inv(d.(moves := moves))
  {
    var v := d.(moves := moves);
    forall p | p in v.traders
      ensures TraderFits(v, p)
    {
      assert TraderFits(d, p);
    }
    forall i | i in v.offers
      ensures OfferFits(v, i)
    {
      assert OfferFits(d, i);
    }
    forall i | i in v.held
      ensures HeldFits(v, i)
    {
      assert HeldFits(d, i);
    }
  }

  lemma ReleaseKeepsInv(d: Desk)
    requires Inv(d)
    ensures Inv(Release(d))
    ensures forall i | i in d.held :: Release(d).held[i] == if i in d.offers then 1 else 0
  {
    var v := Release(d);
    forall p | p in v.traders
      ensures TraderFits(v, p)
    {
      assert TraderFits(d, p);
    }
    forall i | i in v.offers
      ensures OfferFits(v, i)
    {
      assert OfferFits(d, i);
    }
    forall i | i in v.held
      ensures HeldFits(v, i) && v.held[i] == if i in d.offers then 1 else 0
    {
      assert HeldFits(d, i);
    }
  }

  // ---------- Items in items ----------

  // Nothing lies in itself, and what lies in something lies in all that is around it.
  ghost predicate WellNested(inside: Nesting) {
    (forall x | x in inside :: x.0 != x.1) &&
    (forall x, y | x in inside && y in inside && x.1 == y.0 :: (x.0, y.1) in inside)
  }

  // An item with everything inside it, or with everything around it
  function Under(inside: Nesting, x: Item): set<Item> { {x} + set i | i in inside && i.0 == x :: i.1 }

  function Over(inside: Nesting, x: Item): set<Item> { {x} + set i | i in inside && i.1 == x :: i.0 }

  // x, with everything inside it, leaves what is around it, and may go into c.
  function Relocated(inside: Nesting, x: Item, into: Option<Item>): Nesting {
    (set i | i in inside && !(i.1 in Under(inside, x) && i.0 !in Under(inside, x))) +
    if into == None then {}
    else set a, b | a in Over(inside, into.value) && b in Under(inside, x) :: (a, b)
  }

  // What a move of x can disturb: x, what is inside it, and what is around it before or after
  function Touched(inside: Nesting, x: Item, into: Option<Item>): set<Item> {
    Under(inside, x) + Over(inside, x) + if into == None then {} else Over(inside, into.value)
  }

  // What moves with x leaves what is around x and goes to what is around its new place; all else
  // stays as it is.
  lemma RelocatedExactly(inside: Nesting, x: Item, into: Option<Item>, a: Item, b: Item)
    requires WellNested(inside) && (into.Some? ==> into.value != x && (x, into.value) !in inside)
    ensures var moves, within := b == x || (x, b) in inside, a == x || (x, a) in inside;
      (a, b) in Relocated(inside, x, into) <==>
      if moves && !within then into.Some? && (a == into.value || (a, into.value) in inside) else (a, b) in inside
  {
  }

  lemma TouchedExactly(inside: Nesting, x: Item, into: Option<Item>, i: Item)
    ensures i in Touched(inside, x, into) <==>
      i == x || (x, i) in inside || (i, x) in inside || (into.Some? && (i == into.value || (i, into.value) in inside))
  {
  }

  lemma RelocatedNested(inside: Nesting, x: Item, into: Option<Item>)
    requires WellNested(inside) && (into.Some? ==> into.value !in Under(inside, x))
    ensures WellNested(Relocated(inside, x, into))
  {
    var v := Relocated(inside, x, into);
    forall i | i in v
      ensures i.0 != i.1
    {
      if i !in inside {
        assert i.0 in Over(inside, into.value) && i.1 in Under(inside, x);
      }
    }
    forall i, j | i in v && j in v && i.1 == j.0
      ensures (i.0, j.1) in v
    {
      RelocatedJoins(inside, x, into, i, j);
    }
  }

  lemma UnderGoesDown(inside: Nesting, x: Item, a: Item, b: Item)
    requires WellNested(inside) && a in Under(inside, x) && (a, b) in inside
    ensures b in Under(inside, x)
  {
    if a != x {
      assert (x, a) in inside;
      assert (x, b) in inside;
    }
  }

  lemma OverGoesUp(inside: Nesting, c: Item, a: Item, b: Item)
    requires WellNested(inside) && b in Over(inside, c) && (a, b) in inside
    ensures a in Over(inside, c)
  {
    if b != c {
      assert (b, c) in inside;
      assert (a, c) in inside;
    }
  }

  lemma RelocatedJoins(inside: Nesting, x: Item, into: Option<Item>, i: (Item, Item), j: (Item, Item))
    requires WellNested(inside) && (into.Some? ==> into.value !in Under(inside, x))
    requires i in Relocated(inside, x, into) && j in Relocated(inside, x, into) && i.1 == j.0
    ensures (i.0, j.1) in Relocated(inside, x, into)
  {
    var under := Under(inside, x);
    var kept := set k | k in inside && !(k.1 in under && k.0 !in under);
    if i in kept && j in kept {
      assert (i.0, j.1) in inside;
      if j.0 in under {
        UnderGoesDown(inside, x, j.0, j.1);
      }
      assert (i.0, j.1) in kept;
    } else if i in kept {
      OverGoesUp(inside, into.value, i.0, i.1);
    } else if j in kept {
      UnderGoesDown(inside, x, j.0, j.1);
    } else {
      assert j.0 in under && j.0 in Over(inside, into.value);
      if j.0 != into.value {
        UnderGoesDown(inside, x, j.0, into.value);
      }
      assert false;
    }
  }

  // checkTradeState of every player who sees the move
  ghost function Watched(d: Desk, watchers: seq<PlayerId>, touched: set<Item>): Desk
    requires Inv(d)
    decreases |watchers|
  {
    if watchers == [] then d
    else
      var p := watchers[0];
      if p in d.traders && d.traders[p].offer.Some? && d.traders[p].offer.value in touched then
        CloseKeepsInv(d, p);
        Watched(Close(d, p), watchers[1..], touched)
      else Watched(d, watchers[1..], touched)
  }

  lemma CloseEndsOffer(d: Desk, p: PlayerId)
    requires Inv(d) && p in d.traders
    ensures TraderFits(d, p)
    ensures var v := Close(d, p);
      v.held == d.held && v.moves == d.moves && v.traders.Keys == d.traders.Keys &&
      (forall i | i in v.offers :: i in d.offers && v.offers[i] == d.offers[i] && d.offers[i] != p)
  {
    if d.traders[p].partner == None {
      CloseIdle(d, p);
      assert forall i | i in d.offers :: OfferFits(d, i);
    } else {
      ClosePair(d, p, d.traders[p].partner.value);
      assert forall i | i in d.offers :: OfferFits(d, i);
    }
  }

  // If those who offer something that is touched are among the watchers, nothing that is
  // touched stays on offer.
  lemma {:induction false} WatchedIsClear(d: Desk, watchers: seq<PlayerId>, touched: set<Item>)
    requires Inv(d)
    requires forall i | i in d.offers && i in touched :: d.offers[i] in watchers
    ensures var v := Watched(d, watchers, touched);
      Inv(v) && v.offers.Keys <= d.offers.Keys && v.offers.Keys !! touched && v.held == d.held && v.moves == d.moves
    decreases |watchers|
  {
    if watchers != [] {
      var p := watchers[0];
      assert watchers == [p] + watchers[1..];
      forall i | i in d.offers && i in touched
        ensures OfferFits(d, i)
      {
      }
      if p in d.traders && d.traders[p].offer.Some? && d.traders[p].offer.value in touched {
        CloseKeepsInv(d, p);
        CloseEndsOffer(d, p);
        WatchedIsClear(Close(d, p), watchers[1..], touched);
      } else {
        WatchedIsClear(d, watchers[1..], touched);
      }
    }
  }

  // ---------- Runs ----------

  datatype Scene = Scene(desk: Desk, inside: Nesting)

  ghost predicate SceneInv(s: Scene) {
    Inv(s.desk) && OffersApart(s.desk, s.inside) && WellNested(s.inside)
  }

  // Two items that may not both be on offer
  predicate Clash(item: Item, i: Item, inside: Nesting) {
    i == item || (item, i) in inside || (i, item) in inside
  }

  // The item is on offer already, or holds, or lies inside, something on offer.
  predicate AlreadyTraded(d: Desk, inside: Nesting, item: Item) {
    exists i | i in d.offers :: Clash(item, i, inside)
  }

  // playerRequestTrade; `otherwise` says whether its other checks let the request pass
  function Request(s: Scene, p: PlayerId, q: PlayerId, item: Item, otherwise: bool): Desk
    requires item in s.desk.held
  {
    var d := s.desk;
    if p !in d.traders || q !in d.traders || q == p || !otherwise then d
    else if AlreadyTraded(d, s.inside, item) then d
    else Start(d, p, q, item)
  }

  // A player who leaves the game closes the trade first.
  function Leave(d: Desk, p: PlayerId): Desk
    requires p in d.traders && (d.traders[p].partner.Some? ==> d.traders[p].partner.value in d.traders)
  {
    var v := Close(d, p);
    v.(traders := v.traders - {p})
  }

  datatype Event =
    | RequestTrade(p: PlayerId, q: PlayerId, item: Item, otherwise: bool)
    | AcceptTrade(p: PlayerId, answers: Answers)
    | CloseTrade(p: PlayerId)
    | CleanUp
    | PlayerJoins(p: PlayerId)
    | PlayerLeaves(p: PlayerId)
    | ItemAppears(item: Item)
    | ItemMoves(item: Item, into: Option<Item>, watchers: seq<PlayerId>)

  // What the rest of the game sees to: what is asked for exists; what is carried at an
  // exchange are the items on offer; nothing moves into itself (see Containers.QueryAdd);
  // and whoever offers something that a move touches sees the move, as offers lie within a
  // step of their players.
  predicate Guard(s: Scene, e: Event) {
    match e
    case RequestTrade(_, _, item, _) => item in s.desk.held
    case AcceptTrade(p, answers) => Describes(s.desk, p, answers.deal)
    case CloseTrade(p) => p in s.desk.traders
    case CleanUp => true
    case PlayerJoins(p) => p !in s.desk.traders
    case PlayerLeaves(p) => p in s.desk.traders
    case ItemAppears(item) => item !in s.desk.held && Count(s.desk.toRelease, item) == 0
    case ItemMoves(item, into, watchers) =>
      (into.Some? ==> into.value !in Under(s.inside, item)) &&
      forall i | i in s.desk.offers && i in Touched(s.inside, item, into) :: s.desk.offers[i] in watchers
  }

  // The deal is about what the two players offer.
  predicate Describes(d: Desk, p: PlayerId, deal: Deal) {
    p in d.traders && d.traders[p].partner.Some? && d.traders[p].partner.value in d.traders ==>
      var mine, yours := d.traders[p].offer, d.traders[d.traders[p].partner.value].offer;
      (mine.Some? ==> deal.mine.item.id == mine.value.id) && (yours.Some? ==> deal.yours.item.id == yours.value.id)
  }

  ghost function Step(s: Scene, e: Event): (t: Scene)
    requires SceneInv(s) && Guard(s, e)
    ensures SceneInv(t)
  {
    StepKeepsInv(s, e);
    Bare(s, e)
  }

  ghost function Bare(s: Scene, e: Event): Scene
    requires SceneInv(s) && Guard(s, e)
  {
    var d := s.desk;
    match e
    case RequestTrade(p, q, item, otherwise) => s.(desk := Request(s, p, q, item, otherwise))
    case AcceptTrade(p, answers) => s.(desk := Accept(d, p, answers))
    case CloseTrade(p) => s.(desk := Close(d, p))
    case CleanUp => s.(desk := Release(d))
    case PlayerJoins(p) => s.(desk := d.(traders := d.traders[p := IDLE]))
    case PlayerLeaves(p) => s.(desk := Leave(d, p))
    case ItemAppears(item) => s.(desk := d.(held := d.held[item := 0]))
    case ItemMoves(item, into, watchers) =>
      Scene(Watched(d, watchers, Touched(s.inside, item, into)), Relocated(s.inside, item, into))
  }

  // The invariant is asked of the start only; every step is shown to keep it.
  ghost predicate CanRun(s: Scene, es: seq<Event>)
    requires SceneInv(s)
    decreases |es|
  {
    es == [] || (Guard(s, es[0]) && CanRun(Step(s, es[0]), es[1..]))
  }

  ghost function Run(s: Scene, es: seq<Event>): Scene
    requires SceneInv(s) && CanRun(s, es)
    decreases |es|
  {
    if es == [] then s else Run(Step(s, es[0]), es[1..])
  }

  lemma StartKeepsApart(d: Desk, inside: Nesting, p: PlayerId, q: PlayerId, item: Item)
    requires MayStart(d, p, q, item) && OffersApart(d, inside) && WellNested(inside)
    requires !AlreadyTraded(d, inside, item)
    ensures OffersApart(Start(d, p, q, item), inside)
  {
    forall i | i in d.offers
      ensures (item, i) !in inside && (i, item) !in inside
    {
      assert !Clash(item, i, inside);
    }
  }

  lemma RequestKeepsInv(s: Scene, p: PlayerId, q: PlayerId, item: Item, otherwise: bool)
    requires SceneInv(s) && item in s.desk.held
    ensures SceneInv(s.(desk := Request(s, p, q, item, otherwise)))
  {
    var d := s.desk;
    if p in d.traders && q in d.traders && q != p && otherwise && !AlreadyTraded(d, s.inside, item) {
      assert item !in d.offers by {
        assert Clash(item, item, s.inside);
      }
      StartKeepsInv(d, p, q, item);
      StartKeepsApart(d, s.inside, p, q, item);
    }
  }

  lemma CloseMakesIdle(d: Desk, p: PlayerId)
    requires Inv(d) && p in d.traders
    ensures TraderFits(d, p) && p in Close(d, p).traders && Close(d, p).traders[p] == IDLE
  {
    if d.traders[p].partner == None {
      CloseIdle(d, p);
    }
  }

  lemma IdleMayGo(d: Desk, p: PlayerId)
    requires Inv(d) && p in d.traders && d.traders[p] == IDLE
    ensures Inv(d.(traders := d.traders - {p}))
  {
    var v := d.(traders := d.traders - {p});
    forall r | r in v.traders
      ensures TraderFits(v, r)
    {
      assert TraderFits(d, r);
    }
    forall i | i in v.offers
      ensures OfferFits(v, i)
    {
      assert OfferFits(d, i);
    }
    forall i | i in v.held
      ensures HeldFits(v, i)
    {
      assert HeldFits(d, i);
    }
  }

  lemma LeaveKeepsInv(d: Desk, p: PlayerId)
    requires Inv(d) && p in d.traders
    ensures Inv(Leave(d, p))
  {
    CloseKeepsInv(d, p);
    CloseMakesIdle(d, p);
    IdleMayGo(Close(d, p), p);
  }

  lemma JoinKeepsInv(d: Desk, p: PlayerId)
    requires Inv(d) && p !in d.traders
    ensures Inv(d.(traders := d.traders[p := IDLE]))
  {
    var v := d.(traders := d.traders[p := IDLE]);
    forall r | r in v.traders
      ensures TraderFits(v, r)
    {
      if r != p {
        assert TraderFits(d, r);
      }
    }
    forall i | i in v.offers
      ensures OfferFits(v, i)
    {
      assert OfferFits(d, i);
    }
    forall i | i in v.held
      ensures HeldFits(v, i)
    {
      assert HeldFits(d, i);
    }
  }

  lemma AppearKeepsInv(d: Desk, item: Item)
    requires Inv(d) && item !in d.held && Count(d.toRelease, item) == 0
    ensures Inv(d.(held := d.held[item := 0]))
  {
    var v := d.(held := d.held[item := 0]);
    forall r | r in v.traders
      ensures TraderFits(v, r)
    {
      assert TraderFits(d, r);
    }
    forall i | i in v.offers
      ensures OfferFits(v, i)
    {
      assert OfferFits(d, i);
    }
    forall i | i in v.held
      ensures HeldFits(v, i)
    {
      assert i != item ==> HeldFits(d, i);
      assert item in d.offers ==> OfferFits(d, item);
    }
  }

  // Accepting puts nothing new on offer.
  lemma AcceptOffersLess(d: Desk, p: PlayerId, answers: Answers)
    requires Inv(d)
    ensures p in d.traders ==> TraderFits(d, p)
    ensures Accept(d, p, answers).offers.Keys <= d.offers.Keys && Accept(d, p, answers).held == d.held
  {
  }

  lemma StepKeepsInv(s: Scene, e: Event)
    requires SceneInv(s) && Guard(s, e)
    ensures SceneInv(Bare(s, e))
  {
    var d := s.desk;
    match e
    case RequestTrade(p, q, item, otherwise) => RequestKeepsInv(s, p, q, item, otherwise);
    case AcceptTrade(p, answers) =>
      AcceptOffersLess(d, p, answers);
      AcceptKeepsInv(d, p, answers);
    case CloseTrade(p) =>
      CloseEndsOffer(d, p);
      CloseKeepsInv(d, p);
    case CleanUp => ReleaseKeepsInv(d);
    case PlayerJoins(p) => JoinKeepsInv(d, p);
    case PlayerLeaves(p) =>
      CloseEndsOffer(d, p);
      LeaveKeepsInv(d, p);
    case ItemAppears(item) => AppearKeepsInv(d, item);
    case ItemMoves(item, into, watchers) =>
      WatchedIsClear(d, watchers, Touched(s.inside, item, into));
      RelocatedNested(s.inside, item, into);
  }

  // Whatever players do, links stay mutual and never lead to oneself, nobody is linked
  // without trading, no two partners are both left accepting, the offers are exactly the
  // players' own, each holds one reference, and none is nested in another.
  lemma {:induction false} EveryRun(s: Scene, es: seq<Event>)
    requires SceneInv(s) && CanRun(s, es)
    ensures var d := Run(s, es).desk;
      (forall p | p in d.traders :: TraderFits(d, p)) && (forall i | i in d.offers :: OfferFits(d, i)) &&
      (forall i | i in d.held :: HeldFits(d, i)) && OffersApart(d, Run(s, es).inside)
    decreases |es|
  {
    if es != [] {
      EveryRun(Step(s, es[0]), es[1..]);
    }
  }

  // ---------- What changes hands ----------

  // The second of two linked players accepts, both have an item on offer, and the scripts agree.
  predicate Agreed(d: Desk, p: PlayerId, o: Answers) {
    o.reachable && o.agreed && p in d.traders && d.traders[p].offer.Some? &&
    d.traders[p].state == Initiated && d.traders[p].partner.Some? &&
    var q := d.traders[p].partner.value;
    q in d.traders && d.traders[q].state == Accepting && d.traders[q].offer.Some?
  }

  // Only then does anything change hands, and then it is what the exchange of the two
  // players' items moves.
  lemma ExchangeIsAgreed(d: Desk, p: PlayerId, o: Answers)
    requires Inv(d) && (p in d.traders ==> TraderFits(d, p))
    ensures !Agreed(d, p, o) ==> Accept(d, p, o).moves == d.moves
    ensures !o.reachable ==> Accept(d, p, o) == d
    ensures Agreed(d, p, o) ==>
      var q := d.traders[p].partner.value;
      var mine, yours := d.traders[p].offer, d.traders[q].offer;
      Linked(d, p, q) && mine != yours && d.offers[mine.value] == p && d.offers[yours.value] == q &&
      Accept(d, p, o).moves == d.moves + Moves(mine, yours, p, q, o.deal)
  {
    if p in d.traders && d.traders[p].partner.Some? {
      var t := d.traders[p];
      var q := t.partner.value;
      var v := d.(traders := d.traders[p := t.(state := Accepting)]);
      assert TraderFits(d, p) && TraderFits(d, q);
      if d.traders[q].state == Accepting && o.reachable && (t.state == Initiated || t.state == Acknowledged) {
        if o.agreed {
          assert d.moves + [] == d.moves;
        } else {
          CloseAccepted(d, p, q);
          ClosePair(d, p, q);
        }
      }
    }
  }

  // ---------- A whole trade ----------

  // Neither on offer nor nested with anything on offer
  predicate Unrelated(d: Desk, inside: Nesting, item: Item) {
    item in d.held && item !in d.offers && forall i | i in d.offers :: (item, i) !in inside && (i, item) !in inside
  }

  lemma RequestFromIdle(s: Scene, p: PlayerId, q: PlayerId, item: Item)
    requires var d := s.desk;
      p != q && p in d.traders && q in d.traders && d.traders[p] == IDLE && d.traders[q] == IDLE
    requires Unrelated(s.desk, s.inside, item)
    ensures var d := s.desk;
      Request(s, p, q, item, true) ==
      d.(traders := d.traders[p := Trader(Initiated, Some(q), Some(item))][q := Trader(Acknowledged, Some(p), None)],
         held := d.held[item := d.held[item] + 1], offers := d.offers[item := p])
  {
    StartFromIdle(s.desk, p, q, item);
  }

  // Two idle players: one offers the first item and the other answers with the second.
  lemma OfferIsAnswered(s: Scene, p: PlayerId, q: PlayerId, a: Item, b: Item)
    requires var d := s.desk;
      p != q && p in d.traders && q in d.traders && d.traders[p] == IDLE && d.traders[q] == IDLE
    requires Unrelated(s.desk, s.inside, a) && Unrelated(s.desk, s.inside, b)
    requires a != b && (a, b) !in s.inside && (b, a) !in s.inside
    ensures var d := s.desk;
      Request(Scene(Request(s, p, q, a, true), s.inside), q, p, b, true) ==
      d.(traders := d.traders[p := Trader(Initiated, Some(q), Some(a))][q := Trader(Initiated, Some(p), Some(b))],
         held := d.held[a := d.held[a] + 1][b := d.held[b] + 1], offers := d.offers[a := p][b := q])
  {
    RequestFromIdle(s, p, q, a);
    var d, v := s.desk, Request(s, p, q, a, true);
    var t := Trader(Initiated, Some(p), Some(b));
    assert v.traders[q := t] == d.traders[p := Trader(Initiated, Some(q), Some(a))][q := t];
    assert !AlreadyTraded(v, s.inside, b);
  }

  // Both accept: they are idle again and nothing is on offer; if the scripts agree, what the
  // exchange moves changes hands.
  lemma BothAccept(d: Desk, p: PlayerId, q: PlayerId, a: Item, b: Item, first: Answers, second: Answers)
    requires p != q && p in d.traders && q in d.traders && a in d.offers && b in d.offers && a != b
    requires d.traders[p] == Trader(Initiated, Some(q), Some(a)) && d.traders[q] == Trader(Initiated, Some(p), Some(b))
    requires first.reachable && second.reachable
    ensures Accept(d, p, first) == d.(traders := d.traders[p := Trader(Accepting, Some(q), Some(a))])
    ensures var r, deal := Swap(second.deal), second.deal;
      Accept(Accept(d, p, first), q, second) ==
      d.(traders := d.traders[p := IDLE][q := IDLE], offers := d.offers - {a, b}, toRelease := d.toRelease + [b, a],
         moves := d.moves +
           (if second.agreed && r.first > 0 then [Move(b, q, p, r.first == deal.mine.item.count)] else []) +
           (if second.agreed && r.second > 0 then [Move(a, p, q, r.second == deal.yours.item.count)] else []))
  {
    var v := Accept(d, p, first);
    var w := v.(traders := v.traders[q := Trader(Accepting, Some(p), Some(b))]);
    assert w.traders[q := IDLE][p := IDLE] == d.traders[p := IDLE][q := IDLE];
    assert d.toRelease + [b] + [a] == d.toRelease + [b, a];
    assert d.offers - {b} - {a} == d.offers - {a, b};
    if second.agreed {
      MovesAppended(d.moves, b, a, q, p, second.deal);
    } else {
      assert d.moves + [] + [] == d.moves;
    }
  }

  lemma MovesAppended(moves: seq<Move>, mine: Item, yours: Item, p: PlayerId, q: PlayerId, deal: Deal)
    ensures var r := Swap(deal);
      moves + Moves(Some(mine), Some(yours), p, q, deal) ==
      moves + (if r.first > 0 then [Move(mine, p, q, r.first == deal.mine.item.count)] else []) +
      (if r.second > 0 then [Move(yours, q, p, r.second == deal.yours.item.count)] else [])
  {
  }

  // From two idle players to the exchange: both have offered, both have accepted, both are
  // idle again, nothing more is on offer, and the deal's moves have been made.
  lemma WholeTrade(s: Scene, p: PlayerId, q: PlayerId, a: Item, b: Item, first: Answers, second: Answers)
    requires var d := s.desk;
      p != q && p in d.traders && q in d.traders && d.traders[p] == IDLE && d.traders[q] == IDLE
    requires Unrelated(s.desk, s.inside, a) && Unrelated(s.desk, s.inside, b)
    requires a != b && (a, b) !in s.inside && (b, a) !in s.inside
    requires first.reachable && second.reachable && second.agreed
    ensures var d := s.desk;
      var offered := Request(Scene(Request(s, p, q, a, true), s.inside), q, p, b, true);
      var done := Accept(Accept(offered, p, first), q, second);
      var r, deal := Swap(second.deal), second.deal;
      done.traders == d.traders && done.offers == d.offers && done.toRelease == d.toRelease + [b, a] &&
      done.held == d.held[a := d.held[a] + 1][b := d.held[b] + 1] &&
      (r == Exchanged(deal.mine.item.count, deal.yours.item.count) && r.first > 0 && r.second > 0 ==>
         done.moves == d.moves + [Move(b, q, p, true), Move(a, p, q, true)])
  {
    var d := s.desk;
    OfferIsAnswered(s, p, q, a, b);
    var offered := Request(Scene(Request(s, p, q, a, true), s.inside), q, p, b, true);
    BothAccept(offered, p, q, a, b, first, second);
    assert offered.traders[p := IDLE][q := IDLE] == d.traders;
    assert offered.offers - {a, b} == d.offers;
    assert d.moves + [Move(b, q, p, true)] + [Move(a, p, q, true)] ==
      d.moves + [Move(b, q, p, true), Move(a, p, q, true)];
  }

  // ---------- Moves in pairs ----------

  // Accepting does something exactly for a player who has offered or been offered something, and
  // is in reach; while the partner has not accepted, all it does is to mark the player.
  lemma AcceptsExactly(d: Desk, p: PlayerId, o: Answers)
    requires Inv(d) && p in d.traders
    ensures TraderFits(d, p)
    ensures var t, v := d.traders[p], Accept(d, p, o);
      (v == d <==> (t.state != Initiated && t.state != Acknowledged) || !o.reachable) &&
      (v != d && d.traders[t.partner.value].state != Accepting ==>
         v == d.(traders := d.traders[p := t.(state := Accepting)]))
  {
    var t := d.traders[p];
    assert TraderFits(d, p);
    if (t.state == Initiated || t.state == Acknowledged) && o.reachable {
      var q := t.partner.value;
      assert TraderFits(d, q);
      if d.traders[q].state == Accepting {
        assert Accept(d, p, o).traders[p] == IDLE;
      } else {
        assert Accept(d, p, o).traders[p].state == Accepting;
      }
    }
  }

  // Every other move answers the one before it, a whole item for a whole item.
  predicate InPairs(moves: seq<Move>) {
    moves == [] ||
    (|moves| >= 2 && InPairs(moves[..|moves| - 2]) &&
     var a, b := moves[|moves| - 2], moves[|moves| - 1];
     a.from == b.to && a.to == b.from && a.item != b.item && a.whole && b.whole)
  }

  lemma {:induction false} PairsAreEven(moves: seq<Move>)
    requires InPairs(moves)
    ensures |moves| % 2 == 0
  {
    if moves != [] {
      PairsAreEven(moves[..|moves| - 2]);
    }
  }

  lemma NextPair(moves: seq<Move>, a: Move, b: Move)
    requires InPairs(moves)
    ensures InPairs(moves + [a, b]) <==> a.from == b.to && a.to == b.from && a.item != b.item && a.whole && b.whole
    ensures !InPairs(moves + [a])
  {
    assert (moves + [a, b])[..|moves|] == moves;
    PairsAreEven(moves);
    if InPairs(moves + [a]) {
      PairsAreEven(moves + [a]);
    }
  }

  // The moves of a deal extend pairs exactly when it is fair.
  lemma MovesPairExactly(moves: seq<Move>, mine: Item, yours: Item, p: PlayerId, q: PlayerId, deal: Deal)
    requires InPairs(moves) && mine != yours
    ensures InPairs(moves + Moves(Some(mine), Some(yours), p, q, deal)) <==> Fair(deal)
  {
    var r := Swap(deal);
    var a := Move(mine, p, q, r.first == deal.mine.item.count);
    var b := Move(yours, q, p, r.second == deal.yours.item.count);
    NextPair(moves, a, b);
    assert moves + [] == moves && [a] + [b] == [a, b] && [a] + [] == [a];
  }

  // An agreed exchange keeps the moves in pairs exactly when it is fair.
  lemma AcceptPairsExactly(d: Desk, p: PlayerId, o: Answers)
    requires Inv(d) && InPairs(d.moves)
    ensures p in d.traders ==> TraderFits(d, p)
    ensures InPairs(Accept(d, p, o).moves) <==> Agreed(d, p, o) ==> Fair(o.deal)
  {
    assert p in d.traders ==> TraderFits(d, p);
    ExchangeIsAgreed(d, p, o);
    if Agreed(d, p, o) {
      var q := d.traders[p].partner.value;
      MovesPairExactly(d.moves, d.traders[p].offer.value, d.traders[q].offer.value, p, q, o.deal);
    }
  }

  lemma StepKeepsPairs(s: Scene, e: Event)
    requires SceneInv(s) && Guard(s, e) && InPairs(s.desk.moves)
    requires e.AcceptTrade? && Agreed(s.desk, e.p, e.answers) ==> Fair(e.answers.deal)
    ensures InPairs(Step(s, e).desk.moves)
  {
    var d := s.desk;
    match e
    case AcceptTrade(p, o) => AcceptPairsExactly(d, p, o);
    case RequestTrade(_, _, _, _) =>
    case CloseTrade(p) => CloseEndsOffer(d, p);
    case CleanUp =>
    case PlayerJoins(_) =>
    case PlayerLeaves(p) => CloseEndsOffer(d, p);
    case ItemAppears(_) =>
    case ItemMoves(item, into, watchers) => WatchedIsClear(d, watchers, Touched(s.inside, item, into));
  }

  // What can be known of a deal before the exchange: the checks fail, the first item does
  // not go, or both find their places.
  ghost predicate Sound(deal: Deal) {
    !Checks(deal) || StaysPut(deal) || (GoesWhole(deal) && ComesWhole(deal))
  }

  // As long as deals are sound, nothing is ever given without the whole of something being
  // returned for it.
  lemma {:induction false} EveryRunSwaps(s: Scene, es: seq<Event>)
    requires SceneInv(s) && CanRun(s, es) && InPairs(s.desk.moves)
    requires forall e | e in es && e.AcceptTrade? :: Sound(e.answers.deal)
    ensures InPairs(Run(s, es).desk.moves)
    decreases |es|
  {
    if es != [] {
      assert es[0] in es;
      if es[0].AcceptTrade? {
        FairExactly(es[0].answers.deal);
      }
      StepKeepsPairs(s, es[0]);
      EveryRunSwaps(Step(s, es[0]), es[1..]);
    }
  }

  // ---------- The players' fields and the game's methods ----------

  // The steps of an exchange, one after the other: mark, drop both offers, move, clear
  lemma StepsOfExchange(d: Desk, moved: Desk, cleared: Desk, p: PlayerId, q: PlayerId, a: Trader, b: Trader,
                        more: seq<Move>)
    requires p in d.traders && q in d.traders
    requires var marked := d.(traders := d.traders[p := a][q := b]);
      moved == Drop(Drop(marked, d.traders[p].offer), d.traders[q].offer).(moves := d.moves + more)
    requires cleared == moved.(traders := moved.traders[p := IDLE][q := IDLE])
    ensures cleared == Exchange(d, p, q, more)
  {
    assert cleared.traders == d.traders[p := IDLE][q := IDLE];
    DropIgnoresTraders(d, d.(traders := d.traders[p := a][q := b]), d.traders[p].offer, d.traders[q].offer);
  }

  function Optional(item: Item?): Option<Item> {
    if item == null then None
    else
      var present: Item := item;
      Some(present)
  }

  class Player {
    const id: PlayerId
    var tradePartner: Player?
    var tradeItem: Item?
    var tradeState: TradeState

    constructor (id: PlayerId)
      ensures this.id == id && AsTrader() == IDLE
    {
      this.id := id;
      tradePartner := null;
      tradeItem := null;
      tradeState := Idle;
    }

    function AsTrader(): Trader
      reads this
    {
      Trader(tradeState, if tradePartner == null then None else Some(tradePartner.id),
             Optional(tradeItem))
    }
  }

  // What the two players carry, who trades being the player
  datatype Hands = Hands(player: Inventory.Player, partner: Inventory.Player) {

    // The two have these items on offer.
    predicate Show(mine: Offer, yours: Offer)
      reads player, partner
    {
      player != partner && player.tradeItem == Some(mine.item.id) && partner.tradeItem == Some(yours.item.id)
    }

    function Deal(mine: Offer, yours: Offer): Deal
      reads player, partner
    {
      Barter.Deal(SideOf(player), mine, SideOf(partner), yours)
    }
  }

  // What the player is left with: the item is given away if it is among the moves as a whole.
  function Left(deal: Deal, more: seq<Move>): Side {
    if more != [] && more[0].whole then ItemGone(deal.player, deal.mine.item.id) else deal.player
  }

  predicate BothOffer(d: Desk, p: PlayerId) {
    p in d.traders && d.traders[p].offer.Some? && d.traders[p].partner.Some? &&
    var q := d.traders[p].partner.value; q in d.traders && d.traders[q].offer.Some?
  }

  class Game {
    var players: map<PlayerId, Player>
    var tradeItems: map<Item, PlayerId>
    var toReleaseItems: seq<Item>
    ghost var items: set<Item>
    ghost var moves: seq<Move>

    ghost predicate Valid()
      reads this, players.Values
    {
      tradeItems.Keys <= items &&
      (forall k | k in players :: players[k].id == k) &&
      (forall k | k in players && players[k].tradeItem != null :: players[k].tradeItem in items) &&
      (forall k | k in players && players[k].tradePartner != null ::
         players[k].tradePartner.id in players && players[players[k].tradePartner.id] == players[k].tradePartner)
    }

    ghost function Traders(): map<PlayerId, Trader>
      reads `players, players.Values
    {
      map k | k in players :: players[k].AsTrader()
    }

    ghost function Held(): map<Item, int>
      reads `items, items
    {
      map i | i in items :: i.references
    }

    ghost function State(): Desk
      reads this, players.Values, items
    {
      Desk(Traders(), tradeItems, Held(), toReleaseItems, moves)
    }

    predicate Knows(p: Player)
      reads this
    {
      p.id in players && players[p.id] == p
    }

    method ReleaseItem(item: Item)
      modifies `toReleaseItems
      ensures toReleaseItems == old(toReleaseItems) + [item]
    {
      toReleaseItems := toReleaseItems + [item];
    }

    // The search, release and erasure that ends an offer
    method DropOffer(item: Item?)
      requires Valid()
      modifies `toReleaseItems, `tradeItems
      ensures Valid() && State() == Drop(old(State()), Optional(item))
    {
      if item != null && item in tradeItems {
        ReleaseItem(item);
        tradeItems := tradeItems - {item};
      }
    }

    method Clear(player: Player)
      requires Valid() && Knows(player)
      modifies player
      ensures Valid() && State() == old(State()).(traders := old(State()).traders[player.id := IDLE])
      ensures player.AsTrader() == IDLE
    {
      player.tradeState := Idle;
      player.tradeItem := null;
      player.tradePartner := null;
      assert Traders() == old(Traders())[player.id := player.AsTrader()];
    }

    method SetTradeState(player: Player, state: TradeState)
      requires Valid() && Knows(player)
      modifies player`tradeState
      ensures Valid()
      ensures State() ==
        old(State()).(traders := old(State()).traders[player.id := old(player.AsTrader()).(state := state)])
    {
      player.tradeState := state;
      assert Traders() == old(Traders())[player.id := player.AsTrader()];
    }

    // A player's offer is dropped, and the player is out of the trade.
    method EndOffer(player: Player)
      requires Valid() && Knows(player)
      modifies `tradeItems, `toReleaseItems, player
      ensures Valid()
      ensures var d := old(State());
        State() == Drop(d, d.traders[player.id].offer).(traders := d.traders[player.id := IDLE])
    {
      DropOffer(player.tradeItem);
      Clear(player);
    }

    method InternalCloseTrade(player: Player)
      requires Valid() && Knows(player)
      modifies `tradeItems, `toReleaseItems, players.Values
      ensures Valid()
      ensures State() == Close(old(State()), player.id)
    {
      var tradePartner := player.tradePartner;
      if (tradePartner != null && tradePartner.tradeState == Transferring) || player.tradeState == Transferring {
        return;
      }
      EndOffer(player);
      if tradePartner != null {
        EndOffer(tradePartner);
      }
    }

    method SetOffer(player: Player, tradePartner: Player, tradeItem: Item)
      requires Valid() && Knows(player) && Knows(tradePartner) && tradeItem in items
      modifies player
      ensures Valid() && player.tradePartner == tradePartner
      ensures var d := old(State());
        State() ==
          d.(traders := d.traders[player.id := Trader(Initiated, Some(tradePartner.id), Some(tradeItem))])
    {
      player.tradePartner := tradePartner;
      player.tradeItem := tradeItem;
      player.tradeState := Initiated;
      assert Traders() == old(Traders())[player.id := player.AsTrader()];
    }

    method ListOffer(tradeItem: Item, p: PlayerId)
      requires Valid() && tradeItem in items
      modifies `tradeItems, tradeItem
      ensures Valid()
      ensures var d := old(State());
        State() == d.(held := d.held[tradeItem := d.held[tradeItem] + 1], offers := d.offers[tradeItem := p])
    {
      tradeItem.references := tradeItem.references + 1;
      tradeItems := tradeItems[tradeItem := p];
      assert Held() == old(Held())[tradeItem := old(Held())[tradeItem] + 1];
    }

    method PutOnOffer(player: Player, tradePartner: Player, tradeItem: Item)
      requires Valid() && Knows(player) && Knows(tradePartner) && tradeItem in items
      modifies `tradeItems, player, tradeItem
      ensures Valid() && player.tradePartner == tradePartner
      ensures State() == Offered(old(State()), player.id, tradePartner.id, tradeItem)
    {
      SetOffer(player, tradePartner, tradeItem);
      ListOffer(tradeItem, player.id);
    }

    method Acknowledge(tradePartner: Player, player: Player)
      requires Valid() && Knows(player) && Knows(tradePartner)
      modifies tradePartner
      ensures Valid()
      ensures var d := old(State());
        State() == d.(traders := d.traders[tradePartner.id :=
                        d.traders[tradePartner.id].(state := Acknowledged, partner := Some(player.id))])
    {
      tradePartner.tradeState := Acknowledged;
      tradePartner.tradePartner := player;
      assert Traders() == old(Traders())[tradePartner.id := tradePartner.AsTrader()];
    }

    method InternalStartTrade(player: Player, tradePartner: Player, tradeItem: Item) returns (started: bool)
      requires Valid() && Knows(player) && Knows(tradePartner) && tradeItem in items
      modifies `tradeItems, player, tradePartner, tradeItem
      ensures Valid()
      ensures started <==> !Refuses(old(State()), player.id, tradePartner.id)
      ensures State() == Start(old(State()), player.id, tradePartner.id, tradeItem)
    {
      if player.tradeState != Idle && !(player.tradeState == Acknowledged && player.tradePartner == tradePartner) {
        return false;
      } else if tradePartner.tradeState != Idle && tradePartner.tradePartner != player {
        return false;
      }
      OfferTo(player, tradePartner, tradeItem);
      return true;
    }

    // The item is put on offer, and an idle partner is told.
    method OfferTo(player: Player, tradePartner: Player, tradeItem: Item)
      requires Valid() && Knows(player) && Knows(tradePartner) && tradeItem in items
      requires !Refuses(State(), player.id, tradePartner.id)
      modifies `tradeItems, player, tradePartner, tradeItem
      ensures Valid() && State() == Start(old(State()), player.id, tradePartner.id, tradeItem)
    {
      ghost var d := State();
      StartIs(d, player.id, tradePartner.id, tradeItem);
      PutOnOffer(player, tradePartner, tradeItem);
      if tradePartner.tradeState == Idle {
        Acknowledge(tradePartner, player);
      }
    }

    // The loop of playerRequestTrade over what is on offer
    method IsAlreadyTraded(tradeItem: Item, inside: Nesting) returns (found: bool)
      ensures found <==> exists i | i in tradeItems :: Clash(tradeItem, i, inside)
    {
      var rest := tradeItems.Keys;
      while rest != {}
        invariant rest <= tradeItems.Keys
        invariant forall i | i in tradeItems.Keys - rest :: !Clash(tradeItem, i, inside)
        decreases |rest|
      {
        var item :| item in rest;
        assert item in tradeItems;
        if tradeItem == item {
          assert Clash(tradeItem, item, inside);
          return true;
        }
        if (tradeItem, item) in inside {
          assert Clash(tradeItem, item, inside);
          return true;
        }
        if (item, tradeItem) in inside {
          assert Clash(tradeItem, item, inside);
          return true;
        }
        rest := rest - {item};
      }
      return false;
    }

    method PlayerRequestTrade(playerId: PlayerId, tradePlayerId: PlayerId, tradeItem: Item, inside: Nesting,
                              otherwise: bool)
      requires Valid() && tradeItem in items
      modifies `tradeItems, players.Values, tradeItem
      ensures Valid()
      ensures State() == Request(Scene(old(State()), inside), playerId, tradePlayerId, tradeItem, otherwise)
    {
      if playerId !in players {
        return;
      }
      var player := players[playerId];
      if tradePlayerId !in players || players[tradePlayerId] == player {
        return;
      }
      var tradePartner := players[tradePlayerId];
      if !otherwise {
        return;
      }
      var found := IsAlreadyTraded(tradeItem, inside);
      if found {
        return;
      }
      var _ := InternalStartTrade(player, tradePartner, tradeItem);
    }

    method DropBoth(tradeItem1: Item?, tradeItem2: Item?)
      requires Valid()
      modifies `toReleaseItems, `tradeItems
      ensures Valid() && State() == Drop(Drop(old(State()), Optional(tradeItem1)), Optional(tradeItem2))
    {
      DropOffer(tradeItem1);
      DropOffer(tradeItem2);
    }

    // Both are marked, and the two items are no longer on offer.
    method BeginTransfer(player: Player, tradePartner: Player) returns (ghost a: Trader, ghost b: Trader)
      requires Valid() && Knows(player) && Knows(tradePartner)
      modifies `toReleaseItems, `tradeItems, player`tradeState, tradePartner`tradeState
      ensures Valid()
      ensures var d := old(State());
        State() ==
          Drop(Drop(d.(traders := d.traders[player.id := a][tradePartner.id := b]), d.traders[player.id].offer),
               d.traders[tradePartner.id].offer)
    {
      a := player.AsTrader().(state := Transferring);
      SetTradeState(player, Transferring);
      b := tradePartner.AsTrader().(state := Transferring);
      SetTradeState(tradePartner, Transferring);
      DropBoth(player.tradeItem, tradePartner.tradeItem);
    }

    ghost method RecordMoves(more: seq<Move>)
      requires Valid()
      modifies `moves
      ensures Valid() && State() == old(State()).(moves := old(State()).moves + more)
    {
      moves := moves + more;
    }

    method ClearBoth(player: Player, tradePartner: Player)
      requires Valid() && Knows(player) && Knows(tradePartner)
      modifies player, tradePartner
      ensures Valid()
      ensures State() == old(State()).(traders := old(State()).traders[player.id := IDLE][tradePartner.id := IDLE])
    {
      Clear(player);
      Clear(tradePartner);
    }

    // The exchange itself, if both have an item on offer
    method CarryOut(tradeItem1: Item?, tradeItem2: Item?, ghost p: PlayerId, ghost q: PlayerId,
                    hands: Hands, mine: Offer, yours: Offer)
      requires Valid() && (tradeItem1 != null && tradeItem2 != null ==> hands.Show(mine, yours))
      modifies `moves, hands.player`things, hands.player`pockets
      ensures var more := Moves(Optional(tradeItem1), Optional(tradeItem2), p, q, old(hands.Deal(mine, yours)));
        Valid() && State() == old(State()).(moves := old(State()).moves + more) &&
        SideOf(hands.player) == Left(old(hands.Deal(mine, yours)), more)
    {
      if tradeItem1 != null && tradeItem2 != null {
        var r := ExchangeItems(hands.player, mine, hands.partner, yours);
        RecordMoves((if r.first > 0 then [Move(tradeItem1, p, q, r.first == mine.item.count)] else []) +
                    (if r.second > 0 then [Move(tradeItem2, q, p, r.second == yours.item.count)] else []));
      } else {
        RecordMoves([]);
      }
    }

    // The part of playerAcceptTrade that follows once both have accepted
    method Transfer(player: Player, tradePartner: Player, hands: Hands, mine: Offer, yours: Offer)
      returns (ghost more: seq<Move>)
      requires Valid() && Knows(player) && Knows(tradePartner)
      requires player.tradeItem != null && tradePartner.tradeItem != null ==> hands.Show(mine, yours)
      modifies `tradeItems, `toReleaseItems, `moves, player, tradePartner, hands.player`things, hands.player`pockets
      ensures more == Moves(old(Optional(player.tradeItem)), old(Optional(tradePartner.tradeItem)), player.id,
                        tradePartner.id, old(hands.Deal(mine, yours)))
      ensures Valid() && State() == Exchange(old(State()), player.id, tradePartner.id, more)
      ensures SideOf(hands.player) == Left(old(hands.Deal(mine, yours)), more)
    {
      ghost var d := State();
      var tradeItem1, tradeItem2 := player.tradeItem, tradePartner.tradeItem;
      more := Moves(Optional(tradeItem1), Optional(tradeItem2), player.id, tradePartner.id, hands.Deal(mine, yours));
      ghost var a, b := BeginTransfer(player, tradePartner);
      CarryOut(tradeItem1, tradeItem2, player.id, tradePartner.id, hands, mine, yours);
      ghost var moved := State();
      ClearBoth(player, tradePartner);
      StepsOfExchange(d, moved, State(), player.id, tradePartner.id, a, b, more);
    }

    // The part that follows once the player has accepted
    method Settle(player: Player, tradePartner: Player, agreed: bool, hands: Hands, mine: Offer, yours: Offer)
      returns (ghost more: seq<Move>)
      requires Valid() && Knows(player) && player.tradePartner == tradePartner
      requires player.tradeItem != null && tradePartner.tradeItem != null ==> hands.Show(mine, yours)
      modifies `tradeItems, `toReleaseItems, `moves, players.Values, hands.player`things, hands.player`pockets
      ensures Valid()
      ensures State() == Settled(old(State()), player.id, tradePartner.id,
                           Answers(true, agreed, old(hands.Deal(mine, yours))))
      ensures moves == old(moves) + more && SideOf(hands.player) == Left(old(hands.Deal(mine, yours)), more)
    {
      more := [];
      if tradePartner.tradeState == Accepting {
        if !agreed {
          InternalCloseTrade(player);
          return;
        }
        more := Transfer(player, tradePartner, hands, mine, yours);
      }
    }

    // `more` is what changes hands, for the history of moves.
    method PlayerAcceptTrade(playerId: PlayerId, reachable: bool, agreed: bool, hands: Hands, mine: Offer, yours: Offer)
      returns (ghost more: seq<Move>)
      requires Valid() && (BothOffer(State(), playerId) ==> hands.Show(mine, yours))
      modifies `tradeItems, `toReleaseItems, `moves, players.Values, hands.player`things, hands.player`pockets
      ensures Valid()
      ensures State() == Accept(old(State()), playerId, Answers(reachable, agreed, old(hands.Deal(mine, yours))))
      ensures moves == old(moves) + more && SideOf(hands.player) == Left(old(hands.Deal(mine, yours)), more)
    {
      more := [];
      if playerId !in players {
        return;
      }
      var player := players[playerId];
      if !(player.tradeState == Acknowledged || player.tradeState == Initiated) {
        return;
      }
      var tradePartner := player.tradePartner;
      if tradePartner == null {
        return;
      }
      if !reachable {
        return;
      }
      SetTradeState(player, Accepting);
      more := Settle(player, tradePartner, agreed, hands, mine, yours);
    }
  }
}
