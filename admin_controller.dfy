/** The admin endpoints over purchases: the ticket lists of a market's
    purchases, the markets of a day, the live markets and the live lotteries
    of a market per user. A query becomes a function over the table's rows;
    a calendar day is an integer. */
module AdminController {
  import opened Wrappers
  import opened Text
  import opened Records
  import Seqs
  import TicketService

  // ---------------------------------------------------------------------
  // getTicketNumbersByMarket

  /** What a template literal writes for a field that is missing. */
  const UndefinedText: string := "undefined"

  function FieldOr(parts: seq<string>, i: nat): string
  {
    if i < |parts| then parts[i] else UndefinedText
  }

  /** A ticket split on spaces and its first three fields joined again. */
  function Reformat(ticket: string): string
  {
    var parts := Split(ticket, ' ');
    FieldOr(parts, 0) + " " + FieldOr(parts, 1) + " " + FieldOr(parts, 2)
  }

  function ReformatAll(ts: seq<string>): (r: seq<string>)
    ensures |r| == |ts| && forall k :: 0 <= k < |ts| ==> r[k] == Reformat(ts[k])
  {
    seq(|ts|, k requires 0 <= k < |ts| => Reformat(ts[k]))
  }

  /** Reformatting a ticket of the expansion gives it back unchanged, as long
      as the purchase number holds no space and the market's letters start
      after the space character. */
  lemma ReformatTicket(range: TicketRange, group: int, series: string, number: string, sem: int, i: nat)
    requires TicketService.Tickets(Some(range), group, series, number, sem).Ok?
    requires i < |TicketService.Tickets(Some(range), group, series, number, sem).value|
    requires ' ' !in number && ' ' < range.seriesStart
    ensures var t := TicketService.Tickets(Some(range), group, series, number, sem).value[i];
            Reformat(t) == t
  {
    var alphabet := TicketService.AlphabetOf(range);
    var s0 := TicketService.SeriesIndex(alphabet, series).value;
    var t := TicketService.Threshold(sem);
    var g := TicketService.GroupAt(range, group, t, i);
    var c := alphabet[TicketService.SeriesAt(s0, t, |alphabet|, i)];
    TicketService.TicketShape(range, group, series, number, sem, i);
    TicketService.TicketFields(g, c, number);
  }

  /** One element of the reply: the purchase and its reformatted tickets. */
  datatype TicketList = TicketList(
    generateId: string,
    userId: string,
    userName: string,
    sem: int,
    marketName: string,
    ticketList: seq<string>)

  /** `ticketService.list` for a purchase of the market. */
  function ListFor(ranges: seq<TicketRange>, marketId: string, p: Purchase)
    : Result<seq<string>, TicketService.ListError>
  {
    TicketService.Tickets(TicketService.FindRange(ranges, marketId), p.group, [p.series], p.number, p.sem)
  }

  function TicketListOf(p: Purchase, tickets: seq<string>): TicketList
  {
    TicketList(p.generateId, p.userId, p.userName, p.sem, p.marketName, ReformatAll(tickets))
  }

  /** The purchases of the market, in store order. */
  function OfMarket(ps: seq<Purchase>, marketId: string): seq<Purchase>
    decreases |ps|
  {
    if ps == [] then []
    else
      var last := ps[|ps| - 1];
      if last.marketId == marketId then OfMarket(ps[..|ps| - 1], marketId) + [last]
      else OfMarket(ps[..|ps| - 1], marketId)
  }

  /** The outcome of `list` for each purchase, in order. */
  function ListsFor(ranges: seq<TicketRange>, marketId: string, ps: seq<Purchase>)
    : (r: seq<Result<seq<string>, TicketService.ListError>>)
    ensures |r| == |ps|
  {
    seq(|ps|, i requires 0 <= i < |ps| => ListFor(ranges, marketId, ps[i]))
  }

  /** `Promise.all` over the purchases, given each purchase's `list`
      outcome: every list, or the error of the first purchase whose list
      fails. */
  function ListAll(ps: seq<Purchase>, outs: seq<Result<seq<string>, TicketService.ListError>>)
    : Result<seq<TicketList>, TicketService.ListError>
    requires |outs| == |ps|
    decreases |ps|
  {
    if ps == [] then Ok([])
    else
      var n := |ps| - 1;
      match ListAll(ps[..n], outs[..n])
      case Err(e) => Err(e)
      case Ok(done) =>
        match outs[n]
        case Err(e) => Err(e)
        case Ok(ts) => Ok(done + [TicketListOf(ps[n], ts)])
  }

  /** `getTicketNumbersByMarket`. */
  function TicketNumbersByMarket(purchases: seq<Purchase>, ranges: seq<TicketRange>, marketId: string)
    : Result<seq<TicketList>, TicketService.ListError>
  {
    var ps := OfMarket(purchases, marketId);
    ListAll(ps, ListsFor(ranges, marketId, ps))
  }

  /** The reply fails exactly when some purchase's list fails. */
  lemma {:induction false} ListAllFails(ps: seq<Purchase>, outs: seq<Result<seq<string>, TicketService.ListError>>)
    requires |outs| == |ps|
    ensures ListAll(ps, outs).Err? <==> exists i :: 0 <= i < |outs| && outs[i].Err?
    decreases |ps|
  {
    if ps != [] {
      var n := |ps| - 1;
      ListAllFails(ps[..n], outs[..n]);
      if ListAll(ps[..n], outs[..n]).Err? {
        var i :| 0 <= i < n && outs[..n][i].Err?;
        assert outs[i].Err?;
      } else if outs[n].Ok? {
        forall i | 0 <= i < |outs|
          ensures outs[i].Ok?
        {
          if i < n {
            assert outs[..n][i] == outs[i];
          }
        }
      }
    }
  }

  /** Otherwise it has one element per purchase, in order, carrying the
      purchase's reformatted list. */
  lemma {:induction false} ListAllLists(ps: seq<Purchase>, outs: seq<Result<seq<string>, TicketService.ListError>>)
    requires |outs| == |ps| && ListAll(ps, outs).Ok?
    ensures var r := ListAll(ps, outs).value;
            && |r| == |ps|
            && forall k :: 0 <= k < |ps| ==> outs[k].Ok? && r[k] == TicketListOf(ps[k], outs[k].value)
    decreases |ps|
  {
    if ps != [] {
      var n := |ps| - 1;
      var done := ListAll(ps[..n], outs[..n]).value;
      assert ListAll(ps, outs).value == done + [TicketListOf(ps[n], outs[n].value)];
      ListAllLists(ps[..n], outs[..n]);
      forall k | 0 <= k < n
        ensures ps[..n][k] == ps[k] && outs[..n][k] == outs[k]
      {
      }
    }
  }

  /** With space-free numbers and letters, every list in the reply is the
      list the ticket service produced. */
  lemma TicketNumbersUnchanged(purchases: seq<Purchase>, ranges: seq<TicketRange>, marketId: string, k: nat)
    requires TicketNumbersByMarket(purchases, ranges, marketId).Ok?
    requires k < |TicketNumbersByMarket(purchases, ranges, marketId).value|
    requires TicketService.FindRange(ranges, marketId).Some?
    requires ' ' < TicketService.FindRange(ranges, marketId).value.seriesStart
    requires forall i :: 0 <= i < |purchases| ==> ' ' !in purchases[i].number
    ensures k < |OfMarket(purchases, marketId)|
    ensures ListFor(ranges, marketId, OfMarket(purchases, marketId)[k])
            == Ok(TicketNumbersByMarket(purchases, ranges, marketId).value[k].ticketList)
  {
    var ps := OfMarket(purchases, marketId);
    var outs := ListsFor(ranges, marketId, ps);
    ListAllLists(ps, outs);
    var p := ps[k];
    assert outs[k] == ListFor(ranges, marketId, p);
    OfMarketMember(purchases, marketId, p);
    var i :| 0 <= i < |purchases| && purchases[i] == p;
    var range := TicketService.FindRange(ranges, marketId).value;
    var ts := outs[k].value;
    forall j | 0 <= j < |ts|
      ensures ReformatAll(ts)[j] == ts[j]
    {
      ReformatTicket(range, p.group, [p.series], p.number, p.sem, j);
    }
    assert ReformatAll(ts) == ts;
    assert TicketNumbersByMarket(purchases, ranges, marketId).value[k].ticketList == ts;
  }

  lemma {:induction false} OfMarketMember(ps: seq<Purchase>, marketId: string, p: Purchase)
    ensures p in OfMarket(ps, marketId) <==> p in ps && p.marketId == marketId
    decreases |ps|
  {
    if ps != [] {
      OfMarketMember(ps[..|ps| - 1], marketId, p);
      assert ps == ps[..|ps| - 1] + [ps[|ps| - 1]];
    }
  }

  // ---------------------------------------------------------------------
  // getMarkets: one entry per market id

  /** A purchase row as `getMarkets` and `liveMarkets` select it. */
  datatype MarketRef = MarketRef(marketId: string, marketName: string)

  function RefOf(p: Purchase): MarketRef
  {
    MarketRef(p.marketId, p.marketName)
  }

  /** The purchase rows of one day that are not hidden. */
  function DayMarkets(ps: seq<Purchase>, day: int): seq<MarketRef>
    decreases |ps|
  {
    if ps == [] then []
    else
      var last := ps[|ps| - 1];
      if !last.hidePurchase && last.createdDay == day then DayMarkets(ps[..|ps| - 1], day) + [RefOf(last)]
      else DayMarkets(ps[..|ps| - 1], day)
  }

  function Ids(items: seq<MarketRef>): (r: seq<string>)
    ensures |r| == |items| && forall k :: 0 <= k < |items| ==> r[k] == items[k].marketId
  {
    seq(|items|, k requires 0 <= k < |items| => items[k].marketId)
  }

  function FindId(entries: seq<MarketRef>, id: string): (r: Option<nat>)
    ensures r.Some? ==> r.value < |entries| && entries[r.value].marketId == id
    ensures r.None? ==> forall k :: 0 <= k < |entries| ==> entries[k].marketId != id
  {
    if entries == [] then None
    else if entries[0].marketId == id then Some(0)
    else match FindId(entries[1..], id)
      case None => None
      case Some(k) => Some(k + 1)
  }

  /** `map.set(item.marketId, item)` on a `Map` kept as its entries in
      insertion order: a known key keeps its place and takes the new value,
      a new key goes last. */
  function MapSet(entries: seq<MarketRef>, item: MarketRef): seq<MarketRef>
  {
    match FindId(entries, item.marketId)
    case None => entries + [item]
    case Some(k) => entries[k := item]
  }

  /** `Array.from(new Map(items.map(i => [i.marketId, i])).values())`. */
  function ById(items: seq<MarketRef>): seq<MarketRef>
    decreases |items|
  {
    if items == [] then [] else MapSet(ById(items[..|items| - 1]), items[|items| - 1])
  }

  /** The last item with the id, if any. */
  function LastWith(items: seq<MarketRef>, id: string): Option<MarketRef>
    decreases |items|
  {
    if items == [] then None
    else if items[|items| - 1].marketId == id then Some(items[|items| - 1])
    else LastWith(items[..|items| - 1], id)
  }

  /** `getMarkets`: the markets purchased in on the day. */
  function GetMarkets(ps: seq<Purchase>, day: int): seq<MarketRef>
  {
    ById(DayMarkets(ps, day))
  }

  lemma MapSetIds(entries: seq<MarketRef>, item: MarketRef)
    ensures Ids(MapSet(entries, item))
            == if item.marketId in Ids(entries) then Ids(entries) else Ids(entries) + [item.marketId]
  {
    match FindId(entries, item.marketId)
    case None =>
      assert item.marketId !in Ids(entries);
      assert Ids(entries + [item]) == Ids(entries) + [item.marketId];
    case Some(k) =>
      assert Ids(entries)[k] == item.marketId;
      assert Ids(entries[k := item]) == Ids(entries);
  }

  /** The ids come out once each, in the order of their first appearance. */
  lemma {:induction false} ByIdKeys(items: seq<MarketRef>)
    ensures Ids(ById(items)) == Seqs.Distinct(Ids(items))
    decreases |items|
  {
    if items != [] {
      var init := items[..|items| - 1];
      var x := items[|items| - 1];
      ByIdKeys(init);
      MapSetIds(ById(init), x);
      assert Ids(items) == Ids(init) + [x.marketId];
      Seqs.DistinctSnoc(Ids(init), x.marketId);
    }
  }

  /** Each id carries the last row with that id. */
  lemma {:induction false} ByIdValues(items: seq<MarketRef>, k: nat)
    requires k < |ById(items)|
    ensures LastWith(items, ById(items)[k].marketId) == Some(ById(items)[k])
    decreases |items|
  {
    var init := items[..|items| - 1];
    var x := items[|items| - 1];
    var before := ById(init);
    var e := ById(items)[k];
    if e.marketId == x.marketId {
      match FindId(before, x.marketId)
      case None =>
        assert ById(items) == before + [x];
        assert k == |before|;
      case Some(j) =>
        ByIdKeys(init);
        assert ById(items) == before[j := x];
        assert Ids(before)[j] == x.marketId;
    } else {
      assert k < |before| && e == before[k];
      ByIdValues(init, k);
    }
  }

  // ---------------------------------------------------------------------
  // liveMarkets: the first row per market name

  predicate NonVoid(markets: seq<TicketRange>, marketId: string)
  {
    exists m :: m in markets && m.marketId == marketId && !m.isVoid
  }

  /** The purchases `liveMarkets` reads: made since `today`, result not yet
      announced, in a market that is not void, and, when a search text is
      given, with a market name containing it. */
  function LiveRows(ps: seq<Purchase>, markets: seq<TicketRange>, today: int, search: string): seq<MarketRef>
    decreases |ps|
  {
    if ps == [] then []
    else
      var p := ps[|ps| - 1];
      var keep := p.createdDay >= today && !p.resultAnnouncement && NonVoid(markets, p.marketId)
                  && (search == "" || Contains(p.marketName, search));
      if keep then LiveRows(ps[..|ps| - 1], markets, today, search) + [RefOf(p)]
      else LiveRows(ps[..|ps| - 1], markets, today, search)
  }

  function Names(items: seq<MarketRef>): (r: seq<string>)
    ensures |r| == |items| && forall k :: 0 <= k < |items| ==> r[k] == items[k].marketName
  {
    seq(|items|, k requires 0 <= k < |items| => items[k].marketName)
  }

  function FindName(acc: seq<MarketRef>, name: string): (r: Option<nat>)
    ensures r.Some? ==> r.value < |acc| && acc[r.value].marketName == name
    ensures r.None? ==> forall k :: 0 <= k < |acc| ==> acc[k].marketName != name
  {
    if acc == [] then None
    else if acc[0].marketName == name then Some(0)
    else match FindName(acc[1..], name)
      case None => None
      case Some(k) => Some(k + 1)
  }

  /** The reduce: a row is kept when no kept row has its market name. */
  function FirstPerName(items: seq<MarketRef>): seq<MarketRef>
    decreases |items|
  {
    if items == [] then []
    else
      var acc := FirstPerName(items[..|items| - 1]);
      var x := items[|items| - 1];
      if FindName(acc, x.marketName).None? then acc + [x] else acc
  }

  /** The first item with the name, if any. */
  function FirstWith(items: seq<MarketRef>, name: string): Option<MarketRef>
    decreases |items|
  {
    if items == [] then None
    else
      var before := FirstWith(items[..|items| - 1], name);
      if before.Some? then before
      else if items[|items| - 1].marketName == name then Some(items[|items| - 1])
      else None
  }

  /** The reduce as `liveMarkets` runs it. */
  method LiveMarkets(items: seq<MarketRef>) returns (unique: seq<MarketRef>)
    ensures unique == FirstPerName(items)
  {
    unique := [];
    for i := 0 to |items|
      invariant unique == FirstPerName(items[..i])
    {
      var current := items[i];
      assert items[..i + 1][..i] == items[..i];
      var found := FindName(unique, current.marketName);
      if found.None? {
        unique := unique + [current];
      }
    }
    assert items[..|items|] == items;
  }

  /** The names come out once each, in the order of their first appearance. */
  lemma {:induction false} FirstPerNameNames(items: seq<MarketRef>)
    ensures Names(FirstPerName(items)) == Seqs.Distinct(Names(items))
    decreases |items|
  {
    if items != [] {
      var init := items[..|items| - 1];
      var x := items[|items| - 1];
      var acc := FirstPerName(init);
      FirstPerNameNames(init);
      assert Names(items) == Names(init) + [x.marketName];
      Seqs.DistinctSnoc(Names(init), x.marketName);
      if FindName(acc, x.marketName).None? {
        assert x.marketName !in Names(acc);
        assert Names(acc + [x]) == Names(acc) + [x.marketName];
      } else {
        assert x.marketName in Names(acc);
      }
    }
  }

  /** Each name carries the first row with that name. */
  lemma {:induction false} FirstPerNameValues(items: seq<MarketRef>, k: nat)
    requires k < |FirstPerName(items)|
    ensures FirstWith(items, FirstPerName(items)[k].marketName) == Some(FirstPerName(items)[k])
    decreases |items|
  {
    var init := items[..|items| - 1];
    var x := items[|items| - 1];
    var acc := FirstPerName(init);
    var e := FirstPerName(items)[k];
    if k < |acc| {
      assert e == acc[k];
      FirstPerNameValues(init, k);
    } else {
      assert FindName(acc, x.marketName).None? && e == x;
      FirstPerNameNames(init);
      assert x.marketName !in Names(acc);
      FirstWithAbsent(init, x.marketName);
    }
  }

  lemma {:induction false} FirstWithAbsent(items: seq<MarketRef>, name: string)
    requires name !in Names(items)
    ensures FirstWith(items, name) == None
    decreases |items|
  {
    if items != [] {
      var init := items[..|items| - 1];
      assert Names(init) == Names(items)[..|items| - 1];
      assert items[|items| - 1].marketName == Names(items)[|items| - 1];
      FirstWithAbsent(init, name);
    }
  }

  // ---------------------------------------------------------------------
  // liveLotteries: one entry per user

  /** One purchase in a user's entry. */
  datatype Detail = Detail(sem: int, tickets: seq<string>, purchaseId: string, lotteryPrice: int)

  /** One user's entry: the market of the user's first purchase, the total
      price paid and the purchases in order. */
  datatype UserLottery = UserLottery(
    userName: string,
    marketName: string,
    marketId: string,
    amount: int,
    details: seq<Detail>)

  /** The purchases `liveLotteries` reads: the market's, made since `today`,
      result not yet announced, and, when a search text is given, with a
      user name containing it. */
  function LotteryRows(ps: seq<Purchase>, marketId: string, today: int, search: string): seq<Purchase>
    decreases |ps|
  {
    if ps == [] then []
    else
      var p := ps[|ps| - 1];
      var keep := p.marketId == marketId && p.createdDay >= today && !p.resultAnnouncement
                  && (search == "" || Contains(p.userName, search));
      if keep then LotteryRows(ps[..|ps| - 1], marketId, today, search) + [p]
      else LotteryRows(ps[..|ps| - 1], marketId, today, search)
  }

  /** The outcome of `list` for each purchase, in its own market. */
  function OwnLists(ranges: seq<TicketRange>, ps: seq<Purchase>)
    : (r: seq<Result<seq<string>, TicketService.ListError>>)
    ensures |r| == |ps|
  {
    seq(|ps|, i requires 0 <= i < |ps| => ListFor(ranges, ps[i].marketId, ps[i]))
  }

  function FindUser(acc: seq<UserLottery>, name: string): (r: Option<nat>)
    ensures r.Some? ==> r.value < |acc| && acc[r.value].userName == name
    ensures r.None? ==> forall k :: 0 <= k < |acc| ==> acc[k].userName != name
  {
    if acc == [] then None
    else if acc[0].userName == name then Some(0)
    else match FindUser(acc[1..], name)
      case None => None
      case Some(k) => Some(k + 1)
  }

  function DetailOf(p: Purchase, tickets: seq<string>): Detail
  {
    Detail(p.sem, tickets, p.purchaseId, p.lotteryPrice)
  }

  /** One turn of the loop: a new user opens an entry at the end (object keys
      keep insertion order), then the price is added and the purchase listed. */
  function AddPurchase(acc: seq<UserLottery>, p: Purchase, tickets: seq<string>): seq<UserLottery>
  {
    var found := FindUser(acc, p.userName);
    var grown := if found.None? then acc + [UserLottery(p.userName, p.marketName, p.marketId, 0, [])] else acc;
    var k := if found.None? then |acc| else found.value;
    grown[k := grown[k].(amount := grown[k].amount + p.lotteryPrice,
                         details := grown[k].details + [DetailOf(p, tickets)])]
  }

  /** The loop over the purchases, given each purchase's `list` outcome; a
      failing `list` aborts the whole call. */
  function Aggregate(ps: seq<Purchase>, outs: seq<Result<seq<string>, TicketService.ListError>>)
    : Result<seq<UserLottery>, TicketService.ListError>
    requires |outs| == |ps|
    decreases |ps|
  {
    if ps == [] then Ok([])
    else
      var n := |ps| - 1;
      match Aggregate(ps[..n], outs[..n])
      case Err(e) => Err(e)
      case Ok(acc) =>
        match outs[n]
        case Err(e) => Err(e)
        case Ok(ts) => Ok(AddPurchase(acc, ps[n], ts))
  }

  /** `liveLotteries`. */
  function LiveLotteries(purchases: seq<Purchase>, ranges: seq<TicketRange>, marketId: string, today: int, search: string)
    : Result<seq<UserLottery>, TicketService.ListError>
  {
    var rows := LotteryRows(purchases, marketId, today, search);
    Aggregate(rows, OwnLists(ranges, rows))
  }

  /** Once the loop has failed, later purchases change nothing. */
  lemma {:induction false} AggregateStops(ps: seq<Purchase>, outs: seq<Result<seq<string>, TicketService.ListError>>, n: nat)
    requires |outs| == |ps| && n <= |ps|
    requires Aggregate(ps[..n], outs[..n]).Err?
    ensures Aggregate(ps, outs) == Aggregate(ps[..n], outs[..n])
    decreases |ps|
  {
    if n < |ps| {
      var m := |ps| - 1;
      assert ps[..m][..n] == ps[..n] && outs[..m][..n] == outs[..n];
      AggregateStops(ps[..m], outs[..m], n);
    } else {
      assert ps[..n] == ps && outs[..n] == outs;
    }
  }

  /** Two updates of the same entry are one. */
  lemma UpdateTwice(s: seq<UserLottery>, k: nat, price: int, d: Detail)
    requires k < |s|
    ensures var mid := s[k := s[k].(amount := s[k].amount + price)];
            mid[k := mid[k].(details := mid[k].details + [d])]
              == s[k := s[k].(amount := s[k].amount + price, details := s[k].details + [d])]
  {
  }

  /** One more purchase extends the fold by `AddPurchase`, or stops it on a listing error. */
  lemma AggregateStep(ps: seq<Purchase>, outs: seq<Result<seq<string>, TicketService.ListError>>, n: nat, acc: seq<UserLottery>)
    requires |outs| == |ps| && n < |ps|
    requires Aggregate(ps[..n], outs[..n]) == Ok(acc)
    ensures outs[n].Err? ==> Aggregate(ps[..n + 1], outs[..n + 1]) == Err(outs[n].error)
    ensures outs[n].Ok? ==> Aggregate(ps[..n + 1], outs[..n + 1]) == Ok(AddPurchase(acc, ps[n], outs[n].value))
  {
    assert ps[..n + 1][..n] == ps[..n] && outs[..n + 1][..n] == outs[..n];
  }

  /** One pass of the loop body: find or open the buyer's entry, add the price, list the tickets, add the detail. */
  method AddOne(ranges: seq<TicketRange>, userData: seq<UserLottery>, p: Purchase)
    returns (r: Result<seq<UserLottery>, TicketService.ListError>)
    ensures ListFor(ranges, p.marketId, p).Err? ==> r == Err(ListFor(ranges, p.marketId, p).error)
    ensures ListFor(ranges, p.marketId, p).Ok? ==> r == Ok(AddPurchase(userData, p, ListFor(ranges, p.marketId, p).value))
  {
    var found := FindUser(userData, p.userName);
    var grown := userData;
    var k: nat;
    if found.None? {
      grown := grown + [UserLottery(p.userName, p.marketName, p.marketId, 0, [])];
      k := |grown| - 1;
    } else {
      k := found.value;
    }
    var mid := grown[k := grown[k].(amount := grown[k].amount + p.lotteryPrice)];
    var tickets := TicketService.List(ranges, p.group, [p.series], p.number, p.sem, p.marketId);
    if tickets.Err? {
      return Err(tickets.error);
    }
    UpdateTwice(grown, k, p.lotteryPrice, DetailOf(p, tickets.value));
    return Ok(mid[k := mid[k].(details := mid[k].details + [DetailOf(p, tickets.value)])]);
  }

  /** The loop as `liveLotteries` runs it. */
  method LiveLotteriesLoop(ranges: seq<TicketRange>, rows: seq<Purchase>)
    returns (r: Result<seq<UserLottery>, TicketService.ListError>)
    ensures r == Aggregate(rows, OwnLists(ranges, rows))
  {
    ghost var outs := OwnLists(ranges, rows);
    var userData: seq<UserLottery> := [];
    for i := 0 to |rows|
      invariant Aggregate(rows[..i], outs[..i]) == Ok(userData)
    {
      var step := AddOne(ranges, userData, rows[i]);
      AggregateStep(rows, outs, i, userData);
      if step.Err? {
        AggregateStops(rows, outs, i + 1);
        return step;
      }
      userData := step.value;
    }
    assert rows[..|rows|] == rows && outs[..|rows|] == outs;
    return Ok(userData);
  }

  // What each user's entry holds, stated from the purchases alone

  function Users(acc: seq<UserLottery>): (r: seq<string>)
    ensures |r| == |acc| && forall k :: 0 <= k < |acc| ==> r[k] == acc[k].userName
  {
    seq(|acc|, k requires 0 <= k < |acc| => acc[k].userName)
  }

  function Buyers(ps: seq<Purchase>): (r: seq<string>)
    ensures |r| == |ps| && forall k :: 0 <= k < |ps| ==> r[k] == ps[k].userName
  {
    seq(|ps|, k requires 0 <= k < |ps| => ps[k].userName)
  }

  /** The total price of the user's purchases. */
  function PaidBy(ps: seq<Purchase>, name: string): int
    decreases |ps|
  {
    if ps == [] then 0
    else if ps[|ps| - 1].userName == name then PaidBy(ps[..|ps| - 1], name) + ps[|ps| - 1].lotteryPrice
    else PaidBy(ps[..|ps| - 1], name)
  }

  /** The user's purchases with their tickets, in order. */
  function DetailsOf(ps: seq<Purchase>, outs: seq<Result<seq<string>, TicketService.ListError>>, name: string): seq<Detail>
    requires |outs| == |ps| && forall i :: 0 <= i < |outs| ==> outs[i].Ok?
    decreases |ps|
  {
    if ps == [] then []
    else
      var n := |ps| - 1;
      if ps[n].userName == name then DetailsOf(ps[..n], outs[..n], name) + [DetailOf(ps[n], outs[n].value)]
      else DetailsOf(ps[..n], outs[..n], name)
  }

  /** The user's first purchase. */
  function FirstBuy(ps: seq<Purchase>, name: string): Option<Purchase>
    decreases |ps|
  {
    if ps == [] then None
    else
      var before := FirstBuy(ps[..|ps| - 1], name);
      if before.Some? then before
      else if ps[|ps| - 1].userName == name then Some(ps[|ps| - 1])
      else None
  }

  /** A user with no purchase has nothing. */
  lemma {:induction false} NoPurchases(ps: seq<Purchase>, outs: seq<Result<seq<string>, TicketService.ListError>>, name: string)
    requires |outs| == |ps| && forall i :: 0 <= i < |outs| ==> outs[i].Ok?
    requires name !in Buyers(ps)
    ensures PaidBy(ps, name) == 0 && DetailsOf(ps, outs, name) == [] && FirstBuy(ps, name) == None
    decreases |ps|
  {
    if ps != [] {
      var n := |ps| - 1;
      assert Buyers(ps[..n]) == Buyers(ps)[..n];
      assert ps[n].userName == Buyers(ps)[n];
      NoPurchases(ps[..n], outs[..n], name);
    }
  }

  /** `AddPurchase` entry by entry, when the user names are distinct. */
  lemma AddPurchaseEntry(acc: seq<UserLottery>, p: Purchase, ts: seq<string>, k: nat)
    requires Seqs.NoDuplicates(Users(acc))
    requires k < |AddPurchase(acc, p, ts)|
    ensures var e := AddPurchase(acc, p, ts)[k];
            && (k == |acc| ==>
                  p.userName !in Users(acc)
                  && e == UserLottery(p.userName, p.marketName, p.marketId, p.lotteryPrice, [DetailOf(p, ts)]))
            && (k < |acc| && acc[k].userName == p.userName ==>
                  e == acc[k].(amount := acc[k].amount + p.lotteryPrice, details := acc[k].details + [DetailOf(p, ts)]))
            && (k < |acc| && acc[k].userName != p.userName ==> e == acc[k])
  {
    var found := FindUser(acc, p.userName);
    if found.Some? && k < |acc| && acc[k].userName == p.userName {
      assert Users(acc)[k] == Users(acc)[found.value];
    }
    if found.None? {
      assert p.userName !in Users(acc);
    }
  }

  lemma AddPurchaseLength(acc: seq<UserLottery>, p: Purchase, ts: seq<string>)
    ensures |AddPurchase(acc, p, ts)| == if p.userName in Users(acc) then |acc| else |acc| + 1
  {
    var found := FindUser(acc, p.userName);
    if found.Some? {
      assert Users(acc)[found.value] == p.userName;
    }
  }

  /** Unfolds the last step of a successful fold. */
  lemma AggregateLast(ps: seq<Purchase>, outs: seq<Result<seq<string>, TicketService.ListError>>, acc: seq<UserLottery>)
    requires |outs| == |ps| && ps != []
    requires Aggregate(ps, outs) == Ok(acc)
    ensures var n := |ps| - 1;
            && outs[n].Ok? && Aggregate(ps[..n], outs[..n]).Ok?
            && acc == AddPurchase(Aggregate(ps[..n], outs[..n]).value, ps[n], outs[n].value)
  {
  }

  /** `liveLotteries` fails exactly when some purchase's `list` fails. */
  lemma {:induction false} AggregateFails(ps: seq<Purchase>, outs: seq<Result<seq<string>, TicketService.ListError>>)
    requires |outs| == |ps|
    ensures Aggregate(ps, outs).Err? <==> exists i :: 0 <= i < |outs| && outs[i].Err?
    decreases |ps|
  {
    if ps != [] {
      var n := |ps| - 1;
      AggregateFails(ps[..n], outs[..n]);
      if Aggregate(ps[..n], outs[..n]).Err? {
        var i :| 0 <= i < n && outs[..n][i].Err?;
        assert outs[i].Err?;
      }
    }
  }

  /** One entry per buyer, in the order of each buyer's first purchase. */
  lemma {:induction false} AggregateUsers(ps: seq<Purchase>, outs: seq<Result<seq<string>, TicketService.ListError>>)
    requires |outs| == |ps| && Aggregate(ps, outs).Ok?
    ensures Users(Aggregate(ps, outs).value) == Seqs.Distinct(Buyers(ps))
    decreases |ps|
  {
    if ps != [] {
      var n := |ps| - 1;
      var p := ps[n];
      var acc := Aggregate(ps[..n], outs[..n]).value;
      AggregateLast(ps, outs, Aggregate(ps, outs).value);
      AggregateUsers(ps[..n], outs[..n]);
      AddPurchaseUsers(acc, p, outs[n].value);
      assert Buyers(ps) == Buyers(ps[..n]) + [p.userName];
      Seqs.DistinctSnoc(Buyers(ps[..n]), p.userName);
    }
  }

  /** A purchase adds its user at the end when the user is new, and keeps the users otherwise. */
  lemma AddPurchaseUsers(acc: seq<UserLottery>, p: Purchase, ts: seq<string>)
    requires Seqs.NoDuplicates(Users(acc))
    ensures Users(AddPurchase(acc, p, ts))
            == if p.userName in Users(acc) then Users(acc) else Users(acc) + [p.userName]
  {
    var acc' := AddPurchase(acc, p, ts);
    AddPurchaseLength(acc, p, ts);
    forall k | 0 <= k < |acc|
      ensures acc'[k].userName == acc[k].userName
    {
      AddPurchaseEntry(acc, p, ts, k);
    }
    if p.userName !in Users(acc) {
      AddPurchaseEntry(acc, p, ts, |acc|);
    }
  }

  /** Each entry's amount is the total price of that user's purchases. */
  lemma {:induction false} AggregateAmount(ps: seq<Purchase>, outs: seq<Result<seq<string>, TicketService.ListError>>, k: nat)
    requires |outs| == |ps| && Aggregate(ps, outs).Ok? && k < |Aggregate(ps, outs).value|
    ensures Aggregate(ps, outs).value[k].amount == PaidBy(ps, Aggregate(ps, outs).value[k].userName)
    decreases |ps|
  {
    var n := |ps| - 1;
    var p := ps[n];
    var acc := Aggregate(ps[..n], outs[..n]).value;
    var acc' := Aggregate(ps, outs).value;
    AggregateLast(ps, outs, acc');
    AggregateUsers(ps[..n], outs[..n]);
    AddPurchaseLength(acc, p, outs[n].value);
    AddPurchaseEntry(acc, p, outs[n].value, k);
    if k < |acc| {
      AggregateAmount(ps[..n], outs[..n], k);
    } else {
      AggregateFails(ps[..n], outs[..n]);
      NoPurchases(ps[..n], outs[..n], p.userName);
    }
  }

  /** Each entry lists that user's purchases, in order, each with its tickets. */
  lemma {:induction false} AggregateDetails(ps: seq<Purchase>, outs: seq<Result<seq<string>, TicketService.ListError>>, k: nat)
    requires |outs| == |ps| && forall i :: 0 <= i < |outs| ==> outs[i].Ok?
    requires Aggregate(ps, outs).Ok? && k < |Aggregate(ps, outs).value|
    ensures Aggregate(ps, outs).value[k].details == DetailsOf(ps, outs, Aggregate(ps, outs).value[k].userName)
    decreases |ps|
  {
    var n := |ps| - 1;
    var p := ps[n];
    var acc := Aggregate(ps[..n], outs[..n]).value;
    var acc' := Aggregate(ps, outs).value;
    AggregateLast(ps, outs, acc');
    AggregateUsers(ps[..n], outs[..n]);
    AddPurchaseLength(acc, p, outs[n].value);
    AddPurchaseEntry(acc, p, outs[n].value, k);
    if k < |acc| {
      AggregateDetails(ps[..n], outs[..n], k);
    } else {
      NoPurchases(ps[..n], outs[..n], p.userName);
    }
  }

  /** Each entry carries the market of that user's first purchase. */
  lemma {:induction false} AggregateMarket(ps: seq<Purchase>, outs: seq<Result<seq<string>, TicketService.ListError>>, k: nat)
    requires |outs| == |ps| && Aggregate(ps, outs).Ok? && k < |Aggregate(ps, outs).value|
    ensures var e := Aggregate(ps, outs).value[k];
            FirstBuy(ps, e.userName).Some?
            && FirstBuy(ps, e.userName).value.marketName == e.marketName
            && FirstBuy(ps, e.userName).value.marketId == e.marketId
    decreases |ps|
  {
    var n := |ps| - 1;
    var p := ps[n];
    var acc := Aggregate(ps[..n], outs[..n]).value;
    var acc' := Aggregate(ps, outs).value;
    AggregateLast(ps, outs, acc');
    AggregateUsers(ps[..n], outs[..n]);
    AddPurchaseLength(acc, p, outs[n].value);
    AddPurchaseEntry(acc, p, outs[n].value, k);
    if k < |acc| {
      AggregateMarket(ps[..n], outs[..n], k);
    } else {
      AggregateFails(ps[..n], outs[..n]);
      NoPurchases(ps[..n], outs[..n], p.userName);
    }
  }

}
