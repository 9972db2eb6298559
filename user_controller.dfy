/** The user-facing lottery flows: the activation rule that `getAllMarkets`
    and `searchTickets` apply to every market, the range gate of
    `searchTickets`, the admission gate of `PurchaseTickets`, and the markets
    of the day that `getMarkets` lists. The tables are fields of one object;
    the clock, the generated ids and "today" are parameters. */
module UserController {
  import opened Wrappers
  import opened Text
  import opened Records
  import Seqs
  import TicketService
  import AdminController

  /** A row of `UserRange`: a search remembered under its generated id. */
  datatype UserRange = UserRange(generateId: string, group: int, series: char, number: string, sem: int)

  // ---------------------------------------------------------------------
  // The activation rule

  /** `start_time <= now <= end_time`. */
  predicate InWindow(r: TicketRange, now: int)
  {
    r.startTime <= now <= r.endTime
  }

  /** The first bulk update: `isActive = false` where `start_time > now` or `end_time < now`. */
  function Deactivated(ms: seq<TicketRange>, now: int): seq<TicketRange>
  {
    seq(|ms|, k requires 0 <= k < |ms| =>
      if ms[k].startTime > now || ms[k].endTime < now then ms[k].(isActive := false) else ms[k])
  }

  /** The second bulk update: `isActive = true` where `start_time <= now` and `end_time >= now`. */
  function Reactivated(ms: seq<TicketRange>, now: int): seq<TicketRange>
  {
    seq(|ms|, k requires 0 <= k < |ms| =>
      if ms[k].startTime <= now && ms[k].endTime >= now then ms[k].(isActive := true) else ms[k])
  }

  /** Both updates in turn. */
  function Activated(ms: seq<TicketRange>, now: int): seq<TicketRange>
  {
    Reactivated(Deactivated(ms, now), now)
  }

  /** The two where-clauses are complements, so afterwards every flag says
      whether `now` lies in the market's window, and no other column moves. */
  lemma ActivationRule(ms: seq<TicketRange>, now: int)
    ensures |Activated(ms, now)| == |ms|
    ensures forall k :: 0 <= k < |ms| ==> Activated(ms, now)[k] == ms[k].(isActive := InWindow(ms[k], now))
  {
  }

  /** Running the rule again at the same instant changes nothing. */
  lemma ActivationIdempotent(ms: seq<TicketRange>, now: int)
    ensures Activated(Activated(ms, now), now) == Activated(ms, now)
  {
    ActivationRule(ms, now);
    ActivationRule(Activated(ms, now), now);
  }

  /** The market a `findOne` by id finds after the rule is the one it found
      before, with the flag set by the rule. */
  lemma {:induction false} FindRangeActivated(ms: seq<TicketRange>, now: int, marketId: string)
    ensures TicketService.FindRange(Activated(ms, now), marketId)
            == match TicketService.FindRange(ms, marketId)
               case None => None
               case Some(r) => Some(r.(isActive := InWindow(r, now)))
    decreases |ms|
  {
    ActivationRule(ms, now);
    if ms != [] {
      var tail := ms[1..];
      ActivationRule(tail, now);
      assert Activated(ms, now)[1..] == Activated(tail, now);
      FindRangeActivated(tail, now, marketId);
    }
  }

  // ---------------------------------------------------------------------
  // searchTickets: the range gate

  /** The `findOne` query of `searchTickets`: a non-void market of the id,
      created today or later, whose group, series and number ranges hold the
      seed; the number columns are text and compare as text. */
  predicate Holds(r: TicketRange, marketId: string, group: int, series: char, number: string, today: int)
  {
    && r.marketId == marketId
    && !r.isVoid
    && r.groupStart <= group <= r.groupEnd
    && r.seriesStart <= series <= r.seriesEnd
    && LexLe(r.numberStart, number) && LexLe(number, r.numberEnd)
    && r.createdDay >= today
  }

  predicate AnyHolds(ms: seq<TicketRange>, marketId: string, group: int, series: char, number: string, today: int)
  {
    exists k :: 0 <= k < |ms| && Holds(ms[k], marketId, group, series, number, today)
  }

  /** What `searchTickets` returns: the listing error it catches, the tickets
      with the price (itself a returned error value when the market is
      missing), or the "no tickets" answer. */
  datatype SearchOutcome =
    | Failed(error: TicketService.ListError)
    | Found(tickets: seq<string>, price: Result<int, TicketService.PriceError>, sem: int, generateId: string)
    | NoTickets

  /** `searchTickets` on the market table as it was before the call: the
      gate is decided first, the listing and the price see the table after
      the activation rule. */
  function Search(ms: seq<TicketRange>, group: int, series: char, number: string, sem: int,
                  marketId: string, today: int, now: int, generateId: string): SearchOutcome
  {
    if !AnyHolds(ms, marketId, group, series, number, today) then NoTickets
    else
      var after := Activated(ms, now);
      match TicketService.Tickets(TicketService.FindRange(after, marketId), group, [series], number, sem)
      case Err(e) => Failed(e)
      case Ok(ts) => Found(ts, TicketService.CalculatePrice(after, marketId, sem), sem, generateId)
  }

  /** Tickets and a price come back only when some non-void market of the id
      holds the seed; the price is the market's price times sem, untouched by
      the activation rule. */
  lemma SearchGate(ms: seq<TicketRange>, group: int, series: char, number: string, sem: int,
                   marketId: string, today: int, now: int, generateId: string)
    ensures Search(ms, group, series, number, sem, marketId, today, now, generateId).NoTickets?
            <==> forall k :: 0 <= k < |ms| ==> !Holds(ms[k], marketId, group, series, number, today)
    ensures var out := Search(ms, group, series, number, sem, marketId, today, now, generateId);
            out.Found? ==> out.price == TicketService.CalculatePrice(ms, marketId, sem)
                           && out.price.Ok? && out.generateId == generateId
  {
    var out := Search(ms, group, series, number, sem, marketId, today, now, generateId);
    if out.Found? {
      FindRangeActivated(ms, now, marketId);
      var k :| 0 <= k < |ms| && Holds(ms[k], marketId, group, series, number, today);
      assert TicketService.FindRange(ms, marketId).Some?;
    }
  }

  // ---------------------------------------------------------------------
  // PurchaseTickets: the admission gate

  /** What `PurchaseTickets` answers. */
  datatype Admission = UnknownGenerateId | MarketNotFound | TimeEnded | Suspended | Purchased

  /** `UserRange.findOne({ where: { generateId } })`. */
  function FindUserRange(urs: seq<UserRange>, generateId: string): (r: Option<UserRange>)
    ensures r.Some? ==> r.value in urs && r.value.generateId == generateId
    ensures r.None? ==> forall k :: 0 <= k < |urs| ==> urs[k].generateId != generateId
  {
    if urs == [] then None
    else if urs[0].generateId == generateId then Some(urs[0])
    else FindUserRange(urs[1..], generateId)
  }

  /** `TicketRange.findOne({ where: { marketId, isVoid: false } })`, as an index. */
  function FindOpenMarket(ms: seq<TicketRange>, marketId: string): (r: Option<nat>)
    ensures r.Some? ==> r.value < |ms| && ms[r.value].marketId == marketId && !ms[r.value].isVoid
    ensures r.None? ==> forall k :: 0 <= k < |ms| ==> ms[k].marketId != marketId || ms[k].isVoid
  {
    if ms == [] then None
    else if ms[0].marketId == marketId && !ms[0].isVoid then Some(0)
    else match FindOpenMarket(ms[1..], marketId)
      case None => None
      case Some(k) => Some(k + 1)
  }

  /** `currentTime >= new Date(end)`: with the column not loaded the date is
      invalid, and a comparison with an invalid date is false. */
  predicate Ended(now: int, end: Option<int>)
  {
    end.Some? && now >= end.value
  }

  /** The guards in order, given the end time the market query loaded. */
  function Gate(urs: seq<UserRange>, ms: seq<TicketRange>, generateId: string, marketId: string,
                now: int, loadsEndTime: bool): Admission
  {
    if FindUserRange(urs, generateId).None? then UnknownGenerateId
    else match FindOpenMarket(ms, marketId)
      case None => MarketNotFound
      case Some(k) =>
        if Ended(now, if loadsEndTime then Some(ms[k].endTime) else None) then TimeEnded
        else if !ms[k].isActive then Suspended
        else Purchased
  }

  /** The gate as written: the market query selects only marketId,
      marketName, price and isActive, so the time-ended branch is dead. */
  function GateAsWritten(urs: seq<UserRange>, ms: seq<TicketRange>, generateId: string, marketId: string, now: int)
    : (r: Admission)
    ensures r != TimeEnded
    ensures r == Purchased <==> FindUserRange(urs, generateId).Some? && FindOpenMarket(ms, marketId).Some?
                                && ms[FindOpenMarket(ms, marketId).value].isActive
  {
    Gate(urs, ms, generateId, marketId, now, false)
  }

  /** The gate as written admits a purchase in a market whose end time has
      passed, as long as its flag is still set. */
  lemma AsWrittenAdmitsAfterEnd()
    ensures var m := TicketRange("m1", "Morning", 1, 5, 'A', 'E', "00000", "99999", 0, 100, 10,
                                 true, false, false, false, 0);
            var u := UserRange("g1", 1, 'A', "00042", 5);
            GateAsWritten([u], [m], "g1", "m1", 150) == Purchased && 150 >= m.endTime
  {
  }

  /** The gate with the end time loaded: the admission rule the code evidently intends. */
  function Admit(urs: seq<UserRange>, ms: seq<TicketRange>, generateId: string, marketId: string, now: int): Admission
  {
    Gate(urs, ms, generateId, marketId, now, true)
  }

  /** A purchase is admitted exactly when the generated id is known and the
      first non-void market of the id is active with its end time still ahead;
      each refusal names the first guard that fails. */
  lemma AdmitRule(urs: seq<UserRange>, ms: seq<TicketRange>, generateId: string, marketId: string, now: int)
    ensures Admit(urs, ms, generateId, marketId, now) == UnknownGenerateId
            <==> forall k :: 0 <= k < |urs| ==> urs[k].generateId != generateId
    ensures Admit(urs, ms, generateId, marketId, now) == MarketNotFound
            <==> FindUserRange(urs, generateId).Some?
                 && forall k :: 0 <= k < |ms| ==> ms[k].marketId != marketId || ms[k].isVoid
    ensures Admit(urs, ms, generateId, marketId, now) == TimeEnded
            <==> FindUserRange(urs, generateId).Some? && FindOpenMarket(ms, marketId).Some?
                 && now >= ms[FindOpenMarket(ms, marketId).value].endTime
    ensures Admit(urs, ms, generateId, marketId, now) == Purchased
            <==> FindUserRange(urs, generateId).Some? && FindOpenMarket(ms, marketId).Some?
                 && ms[FindOpenMarket(ms, marketId).value].isActive
                 && now < ms[FindOpenMarket(ms, marketId).value].endTime
  {
    if FindUserRange(urs, generateId).None? {
      assert forall k :: 0 <= k < |urs| ==> urs[k].generateId != generateId;
    } else {
      var u := FindUserRange(urs, generateId).value;
      var k :| 0 <= k < |urs| && urs[k] == u;
    }
  }

  /** The purchase row: the seed copied from the user's range, the market's
      name and price, the price the user paid, not yet announced nor hidden. */
  function PurchaseRow(u: UserRange, m: TicketRange, purchaseId: string, userId: string, userName: string,
                       lotteryPrice: int, today: int): (p: Purchase)
    ensures p.group == u.group && p.series == u.series && p.number == u.number && p.sem == u.sem
    ensures p.generateId == u.generateId && p.marketId == m.marketId && p.price == m.price
    ensures !p.resultAnnouncement && !p.hidePurchase
  {
    Purchase(purchaseId, u.generateId, userId, userName, u.group, u.series, u.number, u.sem,
             m.marketName, m.marketId, lotteryPrice, m.price, false, false, today)
  }

  // ---------------------------------------------------------------------
  // getMarkets: the markets a user bought in on a day

  /** `getMarkets` as written: the later `where` key replaces the one on
      `userId`, so the purchases of every user count. */
  function UserMarketsAsWritten(ps: seq<Purchase>, userId: string, day: int): seq<AdminController.MarketRef>
  {
    AdminController.GetMarkets(ps, day)
  }

  /** Two users buy in two markets on the same day; the first user's list
      holds the second user's market. */
  lemma AsWrittenListsOthers()
    ensures var p1 := Purchase("p1", "g1", "u1", "ann", 1, 'A', "00042", 5, "Morning", "m1", 10, 2, false, false, 7);
            var p2 := Purchase("p2", "g2", "u2", "bob", 1, 'A', "00043", 5, "Evening", "m2", 10, 2, false, false, 7);
            AdminController.MarketRef("m2", "Evening") in UserMarketsAsWritten([p1, p2], "u1", 7)
  {
    var p1 := Purchase("p1", "g1", "u1", "ann", 1, 'A', "00042", 5, "Morning", "m1", 10, 2, false, false, 7);
    var p2 := Purchase("p2", "g2", "u2", "bob", 1, 'A', "00043", 5, "Evening", "m2", 10, 2, false, false, 7);
    var r1 := AdminController.RefOf(p1);
    var r2 := AdminController.RefOf(p2);
    assert [p1, p2][..1] == [p1];
    assert AdminController.DayMarkets([p1], 7) == [r1];
    assert AdminController.DayMarkets([p1, p2], 7) == [r1, r2];
    assert [r1, r2][..1] == [r1];
    assert AdminController.ById([r1]) == [r1];
    assert AdminController.FindId([r1], "m2") == None;
    assert AdminController.ById([r1, r2]) == [r1, r2];
  }

  /** The user's own purchases. */
  function OfUser(ps: seq<Purchase>, userId: string): seq<Purchase>
    decreases |ps|
  {
    if ps == [] then []
    else if ps[|ps| - 1].userId == userId then OfUser(ps[..|ps| - 1], userId) + [ps[|ps| - 1]]
    else OfUser(ps[..|ps| - 1], userId)
  }

  /** `getMarkets` filtered by the user, as the `userId` key intends. */
  function UserMarkets(ps: seq<Purchase>, userId: string, day: int): seq<AdminController.MarketRef>
  {
    AdminController.GetMarkets(OfUser(ps, userId), day)
  }

  lemma {:induction false} OfUserMember(ps: seq<Purchase>, userId: string, p: Purchase)
    ensures p in OfUser(ps, userId) <==> p in ps && p.userId == userId
    decreases |ps|
  {
    if ps != [] {
      var init := ps[..|ps| - 1];
      OfUserMember(init, userId, p);
      assert ps == init + [ps[|ps| - 1]];
    }
  }

  lemma {:induction false} DayMarketsMember(ps: seq<Purchase>, day: int, m: AdminController.MarketRef)
    requires m in AdminController.DayMarkets(ps, day)
    ensures exists p :: p in ps && !p.hidePurchase && p.createdDay == day && AdminController.RefOf(p) == m
    decreases |ps|
  {
    var init := ps[..|ps| - 1];
    var last := ps[|ps| - 1];
    assert ps == init + [last];
    if m in AdminController.DayMarkets(init, day) {
      DayMarketsMember(init, day, m);
      var p :| p in init && !p.hidePurchase && p.createdDay == day && AdminController.RefOf(p) == m;
      assert p in ps;
    } else {
      assert last in ps;
    }
  }

  lemma {:induction false} LastWithMember(items: seq<AdminController.MarketRef>, id: string)
    requires AdminController.LastWith(items, id).Some?
    ensures AdminController.LastWith(items, id).value in items
    decreases |items|
  {
    var init := items[..|items| - 1];
    if items[|items| - 1].marketId != id {
      LastWithMember(init, id);
      assert items == init + [items[|items| - 1]];
    }
  }

  /** Every visible purchase of the day puts its market among the day's rows. */
  lemma {:induction false} DayMarketsCover(ps: seq<Purchase>, day: int, p: Purchase)
    requires p in ps && !p.hidePurchase && p.createdDay == day
    ensures AdminController.RefOf(p) in AdminController.DayMarkets(ps, day)
    decreases |ps|
  {
    var init := ps[..|ps| - 1];
    assert ps == init + [ps[|ps| - 1]];
    if p != ps[|ps| - 1] {
      DayMarketsCover(init, day, p);
    }
  }

  /** Entry k of the user's list comes from a visible purchase of the user on the day. */
  lemma UserMarketAt(ps: seq<Purchase>, userId: string, day: int, k: nat)
    requires k < |UserMarkets(ps, userId, day)|
    ensures exists p :: p in ps && p.userId == userId && !p.hidePurchase && p.createdDay == day
                        && AdminController.RefOf(p) == UserMarkets(ps, userId, day)[k]
  {
    var items := AdminController.DayMarkets(OfUser(ps, userId), day);
    var m := UserMarkets(ps, userId, day)[k];
    AdminController.ByIdValues(items, k);
    LastWithMember(items, m.marketId);
    DayMarketsMember(OfUser(ps, userId), day, m);
    var p :| p in OfUser(ps, userId) && !p.hidePurchase && p.createdDay == day && AdminController.RefOf(p) == m;
    OfUserMember(ps, userId, p);
  }

  /** The market of a visible purchase of the user on the day is listed. */
  lemma UserMarketListed(ps: seq<Purchase>, userId: string, day: int, p: Purchase)
    requires p in ps && p.userId == userId && !p.hidePurchase && p.createdDay == day
    ensures p.marketId in AdminController.Ids(UserMarkets(ps, userId, day))
  {
    var items := AdminController.DayMarkets(OfUser(ps, userId), day);
    OfUserMember(ps, userId, p);
    DayMarketsCover(OfUser(ps, userId), day, p);
    var j :| 0 <= j < |items| && items[j] == AdminController.RefOf(p);
    assert AdminController.Ids(items)[j] == p.marketId;
    AdminController.ByIdKeys(items);
  }

  /** The user's list holds exactly the markets of the user's visible
      purchases of the day, each market id once. */
  lemma UserMarketsOwn(ps: seq<Purchase>, userId: string, day: int)
    ensures forall m :: m in UserMarkets(ps, userId, day) ==>
              exists p :: p in ps && p.userId == userId && !p.hidePurchase && p.createdDay == day
                          && AdminController.RefOf(p) == m
    ensures forall p :: p in ps && p.userId == userId && !p.hidePurchase && p.createdDay == day ==>
              p.marketId in AdminController.Ids(UserMarkets(ps, userId, day))
    ensures Seqs.NoDuplicates(AdminController.Ids(UserMarkets(ps, userId, day)))
  {
    var listed := UserMarkets(ps, userId, day);
    forall m | m in listed
      ensures exists p :: p in ps && p.userId == userId && !p.hidePurchase && p.createdDay == day
                          && AdminController.RefOf(p) == m
    {
      var k :| 0 <= k < |listed| && listed[k] == m;
      UserMarketAt(ps, userId, day, k);
    }
    forall p | p in ps && p.userId == userId && !p.hidePurchase && p.createdDay == day
      ensures p.marketId in AdminController.Ids(listed)
    {
      UserMarketListed(ps, userId, day, p);
    }
    AdminController.ByIdKeys(AdminController.DayMarkets(OfUser(ps, userId), day));
  }

  // ---------------------------------------------------------------------
  // The tables and the state-changing calls

  class Tables {
    var markets: seq<TicketRange>
    var userRanges: seq<UserRange>
    var purchases: seq<Purchase>

    constructor (markets: seq<TicketRange>, userRanges: seq<UserRange>, purchases: seq<Purchase>)
      ensures this.markets == markets && this.userRanges == userRanges && this.purchases == purchases
    {
      this.markets := markets;
      this.userRanges := userRanges;
      this.purchases := purchases;
    }

    /** The activation rule of `getAllMarkets` and `searchTickets`: two bulk
        updates, each a pass over the market table. */
    method Activate(now: int)
      modifies this
      ensures markets == Activated(old(markets), now)
      ensures userRanges == old(userRanges) && purchases == old(purchases)
    {
      ghost var before := markets;
      for i := 0 to |markets|
        invariant |markets| == |before|
        invariant forall k :: 0 <= k < i ==> markets[k] == Deactivated(before, now)[k]
        invariant forall k :: i <= k < |markets| ==> markets[k] == before[k]
        invariant userRanges == old(userRanges) && purchases == old(purchases)
      {
        if markets[i].startTime > now || markets[i].endTime < now {
          markets := markets[i := markets[i].(isActive := false)];
        }
      }
      assert markets == Deactivated(before, now);
      ghost var middle := markets;
      for i := 0 to |markets|
        invariant |markets| == |middle|
        invariant forall k :: 0 <= k < i ==> markets[k] == Reactivated(middle, now)[k]
        invariant forall k :: i <= k < |markets| ==> markets[k] == middle[k]
        invariant userRanges == old(userRanges) && purchases == old(purchases)
      {
        if markets[i].startTime <= now && markets[i].endTime >= now {
          markets := markets[i := markets[i].(isActive := true)];
        }
      }
      assert markets == Reactivated(middle, now);
    }

    /** `searchTickets`: the gate on the table as found, the activation rule,
        the user's range recorded in every case, then the listing and the price. */
    method SearchTickets(group: int, series: char, number: string, sem: int, marketId: string,
                         today: int, now: int, generateId: string)
      returns (out: SearchOutcome)
      modifies this
      ensures out == Search(old(markets), group, series, number, sem, marketId, today, now, generateId)
      ensures markets == Activated(old(markets), now)
      ensures userRanges == old(userRanges) + [UserRange(generateId, group, series, number, sem)]
      ensures purchases == old(purchases)
    {
      var found := false;
      for k := 0 to |markets|
        invariant found <==> exists j :: 0 <= j < k && Holds(markets[j], marketId, group, series, number, today)
      {
        if Holds(markets[k], marketId, group, series, number, today) {
          found := true;
        }
      }
      Activate(now);
      userRanges := userRanges + [UserRange(generateId, group, series, number, sem)];
      if !found {
        return NoTickets;
      }
      var tickets := TicketService.List(markets, group, [series], number, sem, marketId);
      if tickets.Err? {
        return Failed(tickets.error);
      }
      var price := TicketService.CalculatePrice(markets, marketId, sem);
      return Found(tickets.value, price, sem, generateId);
    }

    /** `PurchaseTickets` with the end time loaded: the guards in order; an
        ended market is switched off and saved, an admitted purchase is
        recorded with the seed of the user's range. */
    method PurchaseTickets(generateId: string, userId: string, userName: string, lotteryPrice: int,
                           marketId: string, now: int, today: int, purchaseId: string)
      returns (out: Admission)
      modifies this
      ensures out == Admit(old(userRanges), old(markets), generateId, marketId, now)
      ensures out == TimeEnded ==>
                var k := FindOpenMarket(old(markets), marketId).value;
                markets == old(markets)[k := old(markets)[k].(isActive := false)]
      ensures out != TimeEnded ==> markets == old(markets)
      ensures out == Purchased ==>
                purchases == old(purchases)
                  + [PurchaseRow(FindUserRange(old(userRanges), generateId).value,
                                 old(markets)[FindOpenMarket(old(markets), marketId).value],
                                 purchaseId, userId, userName, lotteryPrice, today)]
      ensures out != Purchased ==> purchases == old(purchases)
      ensures userRanges == old(userRanges)
    {
      var userRange := FindUserRange(userRanges, generateId);
      if userRange.None? {
        return UnknownGenerateId;
      }
      var found := FindOpenMarket(markets, marketId);
      if found.None? {
        return MarketNotFound;
      }
      var k := found.value;
      if now >= markets[k].endTime {
        markets := markets[k := markets[k].(isActive := false)];
        return TimeEnded;
      }
      if !markets[k].isActive {
        return Suspended;
      }
      purchases := purchases + [PurchaseRow(userRange.value, markets[k], purchaseId, userId, userName, lotteryPrice, today)];
      return Purchased;
    }
  }
}
