/** Prize declaration and settlement for one market. The declaration walks
    the submitted prizes in array order. Each prize is validated against the
    stored results and against the suffixes of the earlier prizes of the same
    call, and then settled at once: it pays the matching purchasers through
    the ledger, or releases every purchaser's exposure when nothing
    matches. Result rows are written only after every prize has passed, and
    then the market and its purchases are flagged. */
module ResultDeclaration {
  import opened Wrappers
  import opened Text
  import opened Records
  import opened Prizes
  import Seqs
  import TicketService

  /** One element of the request body. */
  datatype Prize = Prize(ticketNumbers: seq<string>, category: string, prizeAmount: int, complementaryPrize: int)

  /** A request to the external ledger. */
  datatype LedgerCall =
    | UpdateBalance(userId: string, prizeAmount: int, marketId: string, lotteryPrice: int)
    | ProfitLoss(userId: string, userName: string, marketId: string, marketName: string,
                 ticketNumber: string, price: int, sem: int, profitLoss: int)
    | RemoveExposure(userId: string, marketId: string, marketName: string)

  /** The ledger's answers: the users whose balance update or exposure
      removal it refuses. */
  datatype Ledger = Ledger(refusesBalance: set<string>, refusesExposure: set<string>)

  datatype DeclareError =
    | MarketNotFound
    | MissingCategories(missing: seq<Category>)
    | InvalidCategory
    | WrongTicketCount(category: Category)
    | AlreadyAwarded
    | CategoryFull(category: Category)
    | NotUnique
    | MalformedTicket
    | SeriesNotOffered
    | BalanceRefused(userId: string)
    | ExposureRefused(userId: string)
    | NoValidTickets

  /** The suffix cursors of one call: First's last five and last four
      characters, Second's last five (held in the variable named for a last
      four), and Third's and Fourth's last four. */
  datatype Cursors = Cursors(
    fiveFirst: Option<string>,
    fourFirst: Option<string>,
    second: Option<string>,
    fourThird: Option<string>,
    fourFourth: Option<string>)

  const NoCursors := Cursors(None, None, None, None, None)

  /** What a call works against: the market, the stored rows as they were at
      the start of the call, the ledger, and today's day number. */
  datatype Env = Env(market: TicketRange, results: seq<ResultRow>, purchases: seq<Purchase>,
                     ledger: Ledger, marketId: string, today: int)

  // ---------------------------------------------------------------------
  // Category completeness

  predicate Provided(prizes: seq<Prize>, c: Category)
  {
    exists k :: 0 <= k < |prizes| && prizes[k].category == Name(c)
  }

  /** The categories no prize names, in First to Fifth order. */
  function Missing(prizes: seq<Prize>): (m: seq<Category>)
    ensures forall c :: c in m <==> !Provided(prizes, c)
    ensures Ordered(m)
  {
    assert forall c: Category :: c in AllCategories by {
      forall c: Category ensures c in AllCategories {
        assert AllCategories[Rank(c)] == c;
      }
    }
    assert forall i :: 0 <= i < |AllCategories| ==> Rank(AllCategories[i]) == i;
    assert forall i, j :: 0 <= i < j < |AllCategories| ==> Rank(AllCategories[i]) < Rank(AllCategories[j]);
    MissingFromOrdered(prizes, AllCategories);
    MissingFrom(prizes, AllCategories)
  }

  function MissingFrom(prizes: seq<Prize>, cs: seq<Category>): (m: seq<Category>)
    ensures forall c :: c in m <==> c in cs && !Provided(prizes, c)
  {
    if cs == [] then []
    else (if Provided(prizes, cs[0]) then [] else [cs[0]]) + MissingFrom(prizes, cs[1..])
  }

  /** Categories in strictly increasing rank. */
  predicate Ordered(cs: seq<Category>)
  {
    forall i, j :: 0 <= i < j < |cs| ==> Rank(cs[i]) < Rank(cs[j])
  }

  lemma {:induction false} MissingFromOrdered(prizes: seq<Prize>, cs: seq<Category>)
    requires Ordered(cs)
    ensures Ordered(MissingFrom(prizes, cs))
  {
    if cs != [] {
      OrderedTail(cs);
      MissingFromOrdered(prizes, cs[1..]);
      if !Provided(prizes, cs[0]) {
        OrderedCons(cs[0], MissingFrom(prizes, cs[1..]));
      }
    }
  }

  /** The tail of an ordered list is ordered and ranks above its head. */
  lemma OrderedTail(cs: seq<Category>)
    requires cs != [] && Ordered(cs)
    ensures Ordered(cs[1..]) && forall c :: c in cs[1..] ==> Rank(cs[0]) < Rank(c)
  {
    forall c | c in cs[1..]
      ensures Rank(cs[0]) < Rank(c)
    {
      var j :| 0 <= j < |cs[1..]| && cs[1..][j] == c;
      assert cs[j + 1] == c;
    }
  }

  /** A category ranked below every element of an ordered list can lead it. */
  lemma OrderedCons(x: Category, rest: seq<Category>)
    requires Ordered(rest) && forall c :: c in rest ==> Rank(x) < Rank(c)
    ensures Ordered([x] + rest)
  {
    var m := [x] + rest;
    forall i, j | 0 <= i < j < |m|
      ensures Rank(m[i]) < Rank(m[j])
    {
      assert m[j] == rest[j - 1] && rest[j - 1] in rest;
      if i > 0 {
        assert m[i] == rest[i - 1];
      }
    }
  }

  // ---------------------------------------------------------------------
  // Per-prize validation

  /** Today's stored rows of the market already hold one of `tickets`. */
  predicate AwardedToday(results: seq<ResultRow>, marketId: string, today: int, tickets: seq<string>)
  {
    exists k, t :: 0 <= k < |results| && results[k].marketId == marketId && results[k].createdDay == today
                   && t in tickets && t in results[k].ticketNumbers
  }

  /** The stored rows of the market in tier `c`, of any date. */
  function TierRows(results: seq<ResultRow>, marketId: string, c: Category): nat
    decreases |results|
  {
    if results == [] then 0
    else
      var last := results[|results| - 1];
      TierRows(results[..|results| - 1], marketId, c) + (if last.marketId == marketId && last.category == c then 1 else 0)
  }

  /** The suffix rule on the first ticket of a tier: its window (last five
      characters for Second, last four for Third to Fifth) must differ from
      the cursors the earlier prizes of the call have set; a passing prize
      sets its own cursor. */
  function SuffixRule(c: Category, ticket: string, cur: Cursors): Result<Cursors, DeclareError>
  {
    match c
    case First => Ok(cur.(fiveFirst := Some(Last(ticket, 5)), fourFirst := Some(Last(ticket, 4))))
    case Second =>
      var v := Some(Last(ticket, 5));
      if v != cur.fiveFirst then Ok(cur.(second := v)) else Err(NotUnique)
    case Third =>
      var v := Some(Last(ticket, 4));
      if v != cur.fiveFirst && v != cur.second && v != cur.fourFirst
      then Ok(cur.(fourThird := v)) else Err(NotUnique)
    case Fourth =>
      var v := Some(Last(ticket, 4));
      if v != cur.fiveFirst && v != cur.second && v != cur.fourThird && v != cur.fourFirst
      then Ok(cur.(fourFourth := v)) else Err(NotUnique)
    case Fifth =>
      var v := Some(Last(ticket, 4));
      if v != cur.fiveFirst && v != cur.second && v != cur.fourThird && v != cur.fourFourth && v != cur.fourFirst
      then Ok(cur) else Err(NotUnique)
  }

  /** The checks of one prize, in the order the controller makes them. */
  function CheckPrize(env: Env, cur: Cursors, prize: Prize): (r: Result<(Category, Cursors), DeclareError>)
    ensures r.Ok? ==>
              var c := r.value.0;
              && Name(c) == prize.category
              && |prize.ticketNumbers| == Limit(c)
              && !AwardedToday(env.results, env.marketId, env.today, prize.ticketNumbers)
              && TierRows(env.results, env.marketId, c) < Limit(c)
    ensures (forall c: Category :: Name(c) != prize.category) ==> r == Err(InvalidCategory)
  {
    match ParseCategory(prize.category)
    case None => Err(InvalidCategory)
    case Some(c) =>
      if |prize.ticketNumbers| != Limit(c) then Err(WrongTicketCount(c))
      else if AwardedToday(env.results, env.marketId, env.today, prize.ticketNumbers) then Err(AlreadyAwarded)
      else if TierRows(env.results, env.marketId, c) >= Limit(c) then Err(CategoryFull(c))
      else
        match SuffixRule(c, prize.ticketNumbers[0], cur)
        case Err(e) => Err(e)
        case Ok(next) => Ok((c, next))
  }

  // ---------------------------------------------------------------------
  // Matching

  /** One winning ticket against one purchase: First Prize compares the
      ticket's three fields with the purchase seed (the group column is an
      integer, compared with the field's numeric value); the other tiers ask
      that the purchase number end with the ticket's last five (Second) or
      last four characters. */
  predicate TicketMatches(c: Category, ticket: string, p: Purchase)
  {
    if c == First then
      var f := Split(ticket, ' ');
      |f| >= 3 && ParseInt(f[0]).Some? && ParseInt(f[0]).value == p.group
      && f[1] == [p.series] && f[2] == p.number
    else EndsWith(p.number, Last(ticket, if c == Second then 5 else 4))
  }

  /** A purchase of the market made today that matches any of the tickets. */
  predicate IsWinning(p: Purchase, marketId: string, today: int, c: Category, tickets: seq<string>)
  {
    p.marketId == marketId && p.createdDay == today && exists t :: t in tickets && TicketMatches(c, t, p)
  }

  /** The matching query: winning rows in store order, each once. */
  function Matched(ps: seq<Purchase>, marketId: string, today: int, c: Category, tickets: seq<string>)
    : (m: seq<Purchase>)
    ensures |m| <= |ps|
    ensures forall p :: p in m <==> p in ps && IsWinning(p, marketId, today, c, tickets)
    decreases |ps|
  {
    if ps == [] then []
    else
      var last := ps[|ps| - 1];
      Matched(ps[..|ps| - 1], marketId, today, c, tickets)
        + (if IsWinning(last, marketId, today, c, tickets) then [last] else [])
  }

  /** A First Prize ticket with fewer than three fields leaves a field of the
      query undefined, and the query fails. */
  predicate Malformed(c: Category, tickets: seq<string>)
  {
    c == First && exists t :: t in tickets && |Split(t, ' ')| < 3
  }

  predicate HasPurchase(ps: seq<Purchase>, marketId: string)
  {
    exists k :: 0 <= k < |ps| && ps[k].marketId == marketId
  }

  /** `PurchaseLottery.findOne({ where: { marketId } })`: the market's first purchase. */
  function FirstPurchase(ps: seq<Purchase>, marketId: string): (r: Option<Purchase>)
    ensures r.Some? <==> HasPurchase(ps, marketId)
    ensures r.Some? ==> exists k :: 0 <= k < |ps| && ps[k] == r.value && r.value.marketId == marketId
                          && forall j :: 0 <= j < k ==> ps[j].marketId != marketId
    decreases |ps|
  {
    if ps == [] then None
    else if ps[0].marketId == marketId then Some(ps[0])
    else
      var r := FirstPurchase(ps[1..], marketId);
      assert HasPurchase(ps, marketId) ==> HasPurchase(ps[1..], marketId) by {
        if HasPurchase(ps, marketId) {
          var k :| 0 <= k < |ps| && ps[k].marketId == marketId;
          assert ps[1..][k - 1] == ps[k];
        }
      }
      assert HasPurchase(ps[1..], marketId) ==> HasPurchase(ps, marketId) by {
        if HasPurchase(ps[1..], marketId) {
          var k :| 0 <= k < |ps| - 1 && ps[1..][k].marketId == marketId;
          assert ps[k + 1] == ps[1..][k];
        }
      }
      if r.Some? then
        assert exists k :: 0 <= k < |ps| && ps[k] == r.value && r.value.marketId == marketId
                             && forall j :: 0 <= j < k ==> ps[j].marketId != marketId by {
          var k :| 0 <= k < |ps| - 1 && ps[1..][k] == r.value && r.value.marketId == marketId
                   && forall j :: 0 <= j < k ==> ps[1..][j].marketId != marketId;
          assert ps[k + 1] == r.value;
          forall j | 0 <= j < k + 1 ensures ps[j].marketId != marketId {
            if j > 0 { assert ps[j] == ps[1..][j - 1]; }
          }
        }
        r
      else r
  }

  /** The `list` call made, and discarded, while a First Prize is matched:
      it lists the market's first purchase and throws when that purchase's
      series is not one the market offers. */
  predicate FirstListFails(env: Env)
  {
    match FirstPurchase(env.purchases, env.marketId)
    case None => false
    case Some(p) => TicketService.Tickets(Some(env.market), p.group, [p.series], p.number, p.sem).Err?
  }

  function MarketPurchases(ps: seq<Purchase>, marketId: string): (m: seq<Purchase>)
    ensures forall p :: p in m <==> p in ps && p.marketId == marketId
    decreases |ps|
  {
    if ps == [] then []
    else
      var last := ps[|ps| - 1];
      MarketPurchases(ps[..|ps| - 1], marketId) + (if last.marketId == marketId then [last] else [])
  }

  // ---------------------------------------------------------------------
  // Aggregation per user

  function UserIds(ps: seq<Purchase>): (us: seq<string>)
    ensures |us| == |ps| && forall i :: 0 <= i < |ps| ==> us[i] == ps[i].userId
  {
    seq(|ps|, i requires 0 <= i < |ps| => ps[i].userId)
  }

  /** The user's matched rows. */
  function CountOf(ps: seq<Purchase>, u: string): nat
    decreases |ps|
  {
    if ps == [] then 0
    else CountOf(ps[..|ps| - 1], u) + (if ps[|ps| - 1].userId == u then 1 else 0)
  }

  /** The stake per user, accumulated row by row into a map. */
  function StakeMap(ps: seq<Purchase>): map<string, int>
    decreases |ps|
  {
    if ps == [] then map[]
    else
      var m := StakeMap(ps[..|ps| - 1]);
      var u := ps[|ps| - 1].userId;
      m[u := (if u in m then m[u] else 0) + ps[|ps| - 1].lotteryPrice]
  }

  /** The map holds exactly the users of the rows, each with its total stake. */
  lemma {:induction false} StakeMapOf(ps: seq<Purchase>, u: string)
    ensures u in StakeMap(ps) <==> u in UserIds(ps)
    ensures u in StakeMap(ps) ==> StakeMap(ps)[u] == StakeOf(ps, u)
    ensures u !in StakeMap(ps) ==> StakeOf(ps, u) == 0
    decreases |ps|
  {
    if ps != [] {
      var init := ps[..|ps| - 1];
      StakeMapOf(init, u);
      assert UserIds(ps) == UserIds(init) + [ps[|ps| - 1].userId];
    }
  }

  /** The user's total stake, the sum of the rows' `lotteryPrice`. */
  function StakeOf(ps: seq<Purchase>, u: string): int
    decreases |ps|
  {
    if ps == [] then 0
    else StakeOf(ps[..|ps| - 1], u) + (if ps[|ps| - 1].userId == u then ps[|ps| - 1].lotteryPrice else 0)
  }

  function FirstRowOf(ps: seq<Purchase>, u: string): (p: Purchase)
    requires u in UserIds(ps)
    ensures p in ps && p.userId == u
  {
    ps[Seqs.FirstIndex(UserIds(ps), u)]
  }

  /** The prize per matched row: the amount for First Prize, sem times the
      amount otherwise. */
  function PrizeFor(c: Category, amount: int, sem: int): int
  {
    if c == First then amount else sem * amount
  }

  /** The two ledger calls for one winning user, with the sem, name, market
      name and number of the user's first matched row. */
  function UserCalls(ps: seq<Purchase>, u: string, c: Category, amount: int, marketId: string): seq<LedgerCall>
    requires u in UserIds(ps)
  {
    var row := FirstRowOf(ps, u);
    var total := PrizeFor(c, amount, row.sem) * CountOf(ps, u);
    var stake := StakeOf(ps, u);
    [UpdateBalance(u, total, marketId, stake),
     ProfitLoss(u, row.userName, marketId, row.marketName, row.number, stake, row.sem, total)]
  }

  /** The calls a sequence of requests produced, and the error that stopped it. */
  datatype Fanout = Fanout(calls: seq<LedgerCall>, error: Option<DeclareError>)

  /** Paying `users` in order; a refused balance update stops the pass after
      that user's two calls. */
  function Payouts(ps: seq<Purchase>, users: seq<string>, c: Category, amount: int, marketId: string, ledger: Ledger)
    : (f: Fanout)
    requires forall u :: u in users ==> u in UserIds(ps)
    ensures f.error.Some? ==>
              && f.error.value.BalanceRefused?
              && f.error.value.userId in ledger.refusesBalance
              && f.error.value.userId in users
    decreases |users|
  {
    if users == [] then Fanout([], None)
    else
      var f := Payouts(ps, users[..|users| - 1], c, amount, marketId, ledger);
      var u := users[|users| - 1];
      if f.error.Some? then f
      else Fanout(f.calls + UserCalls(ps, u, c, amount, marketId),
                  if u in ledger.refusesBalance then Some(BalanceRefused(u)) else None)
  }

  /** Releasing the exposure of `users` in order; a refusal stops the pass. */
  function Exposures(users: seq<string>, marketId: string, marketName: string, ledger: Ledger): (f: Fanout)
    ensures f.error.Some? ==>
              && f.error.value.ExposureRefused?
              && f.error.value.userId in ledger.refusesExposure
              && f.error.value.userId in users
    decreases |users|
  {
    if users == [] then Fanout([], None)
    else
      var f := Exposures(users[..|users| - 1], marketId, marketName, ledger);
      var u := users[|users| - 1];
      if f.error.Some? then f
      else Fanout(f.calls + [RemoveExposure(u, marketId, marketName)],
                  if u in ledger.refusesExposure then Some(ExposureRefused(u)) else None)
  }

  /** Settling one prize: nothing when the market has no purchase at all;
      otherwise the matched users are paid, or, when none matched, every
      distinct purchaser of the market has the exposure released. */
  function Settle(env: Env, c: Category, prize: Prize): (f: Fanout)
    ensures f.error.Some? ==> f.error.value.MalformedTicket? || f.error.value.SeriesNotOffered?
                              || f.error.value.BalanceRefused? || f.error.value.ExposureRefused?
    ensures f.error == Some(SeriesNotOffered) ==> c == First && f.calls == []
  {
    if !HasPurchase(env.purchases, env.marketId) then Fanout([], None)
    else if c == First && FirstListFails(env) then Fanout([], Some(SeriesNotOffered))
    else if Malformed(c, prize.ticketNumbers) then Fanout([], Some(MalformedTicket))
    else
      var m := Matched(env.purchases, env.marketId, env.today, c, prize.ticketNumbers);
      if m != [] then
        Payouts(m, Seqs.Distinct(UserIds(m)), c, prize.prizeAmount, env.marketId, env.ledger)
      else
        Exposures(Seqs.Distinct(UserIds(MarketPurchases(env.purchases, env.marketId))),
                  env.marketId, env.market.marketName, env.ledger)
  }

  // ---------------------------------------------------------------------
  // The declaration as a whole

  datatype Progress = Progress(cursors: Cursors, rows: seq<ResultRow>, calls: seq<LedgerCall>, error: Option<DeclareError>)

  function RowFor(env: Env, c: Category, prize: Prize): ResultRow
  {
    ResultRow(prize.ticketNumbers, c, prize.prizeAmount,
              if c == First then Some(prize.complementaryPrize) else None,
              env.market.marketName, env.marketId, env.today)
  }

  /** One turn of the prize loop from the cursors `cur`: the new cursors,
      the row it queues, the ledger calls it makes and the error that ends
      the loop. */
  function Step(env: Env, cur: Cursors, prize: Prize): Progress
  {
    match CheckPrize(env, cur, prize)
    case Err(e) => Progress(cur, [], [], Some(e))
    case Ok((c, next)) =>
      var f := Settle(env, c, prize);
      Progress(next, [RowFor(env, c, prize)], f.calls, f.error)
  }

  /** The prize loop over a prefix of the prizes; the first error stops it. */
  function Steps(env: Env, prizes: seq<Prize>): Progress
    decreases |prizes|
  {
    if prizes == [] then Progress(NoCursors, [], [], None)
    else
      var p := Steps(env, prizes[..|prizes| - 1]);
      if p.error.Some? then p
      else
        var q := Step(env, p.cursors, prizes[|prizes| - 1]);
        Progress(q.cursors, p.rows + q.rows, p.calls + q.calls, q.error)
  }

  predicate Declared(results: seq<ResultRow>, marketId: string, c: Category)
  {
    exists k :: 0 <= k < |results| && results[k].marketId == marketId && results[k].category == c
  }

  /** Every tier has a stored row for the market. */
  predicate AllDeclared(results: seq<ResultRow>, marketId: string)
  {
    forall c: Category :: Declared(results, marketId, c)
  }

  /** `update({ isActive: false, isWin: true }, { where: { marketId } })`. */
  function SetWin(markets: seq<TicketRange>, marketId: string): seq<TicketRange>
  {
    seq(|markets|, i requires 0 <= i < |markets| =>
      if markets[i].marketId == marketId then markets[i].(isActive := false, isWin := true) else markets[i])
  }

  /** `update({ winReference: true }, { where: { marketId } })`. */
  function SetWinReference(markets: seq<TicketRange>, marketId: string): seq<TicketRange>
  {
    seq(|markets|, i requires 0 <= i < |markets| =>
      if markets[i].marketId == marketId then markets[i].(winReference := true) else markets[i])
  }

  /** `update({ resultAnnouncement: true }, { where: { marketId } })`. */
  function Announce(purchases: seq<Purchase>, marketId: string): seq<Purchase>
  {
    seq(|purchases|, i requires 0 <= i < |purchases| =>
      if purchases[i].marketId == marketId then purchases[i].(resultAnnouncement := true) else purchases[i])
  }

  /** The reply of a declaration, the ledger calls it made, and the new tables. */
  datatype Outcome = Outcome(result: Result<seq<ResultRow>, DeclareError>, calls: seq<LedgerCall>,
                             markets: seq<TicketRange>, results: seq<ResultRow>, purchases: seq<Purchase>)

  /** `ResultDeclare` as a function of the tables at the start of the call. */
  function Declare(markets: seq<TicketRange>, results: seq<ResultRow>, purchases: seq<Purchase>,
                   ledger: Ledger, marketId: string, prizes: seq<Prize>, today: int): Outcome
  {
    match TicketService.FindRange(markets, marketId)
    case None => Outcome(Err(MarketNotFound), [], markets, results, purchases)
    case Some(market) =>
      var missing := Missing(prizes);
      if missing != [] then Outcome(Err(MissingCategories(missing)), [], markets, results, purchases)
      else
        var env := Env(market, results, purchases, ledger, marketId, today);
        var p := Steps(env, prizes);
        if p.error.Some? then Outcome(Err(p.error.value), p.calls, markets, results, purchases)
        else if p.rows == [] then Outcome(Err(NoValidTickets), p.calls, markets, results, purchases)
        else
          var results' := results + p.rows;
          var flagged := if AllDeclared(results', marketId) then SetWin(markets, marketId) else markets;
          Outcome(Ok(p.rows), p.calls, SetWinReference(flagged, marketId), results', Announce(purchases, marketId))
  }

  // ---------------------------------------------------------------------
  // The store and the controller

  /** The three tables the controller touches, and the log of the requests
      it has sent to the ledger. */
  class Store {
    var markets: seq<TicketRange>
    var results: seq<ResultRow>
    var purchases: seq<Purchase>
    ghost var calls: seq<LedgerCall>

    constructor (markets: seq<TicketRange>, results: seq<ResultRow>, purchases: seq<Purchase>)
      ensures this.markets == markets && this.results == results && this.purchases == purchases
      ensures calls == []
    {
      this.markets := markets;
      this.results := results;
      this.purchases := purchases;
      calls := [];
    }

    /** `ResultDeclare(req, res)` for `req.params.marketId` and `req.body`. */
    method ResultDeclare(marketId: string, prizes: seq<Prize>, today: int, ledger: Ledger)
      returns (r: Result<seq<ResultRow>, DeclareError>)
      modifies this
      ensures var o := Declare(old(markets), old(results), old(purchases), ledger, marketId, prizes, today);
              && r == o.result && calls == old(calls) + o.calls
              && markets == o.markets && results == o.results && purchases == o.purchases
    {
      var found := TicketService.FindRange(markets, marketId);
      if found.None? {
        return Err(MarketNotFound);
      }
      var missing := Missing(prizes);
      if missing != [] {
        return Err(MissingCategories(missing));
      }
      var env := Env(found.value, results, purchases, ledger, marketId, today);
      var generated, err := DeclarePrizes(env, prizes);
      if err.Some? {
        return Err(err.value);
      }
      if |generated| == 0 {
        return Err(NoValidTickets);
      }
      results := results + generated;
      if AllDeclared(results, marketId) {
        markets := SetWin(markets, marketId);
      }
      markets := SetWinReference(markets, marketId);
      purchases := Announce(purchases, marketId);
      return Ok(generated);
    }

    /** The loop over the prizes, with the suffix cursors and
        the rows waiting to be written. */
    method DeclarePrizes(env: Env, prizes: seq<Prize>) returns (generated: seq<ResultRow>, err: Option<DeclareError>)
      modifies this`calls
      ensures var p := Steps(env, prizes);
              calls == old(calls) + p.calls && generated == p.rows && err == p.error
    {
      generated := [];
      var cursors := NoCursors;
      var i := 0;
      while i < |prizes|
        invariant 0 <= i <= |prizes|
        invariant var p := Steps(env, prizes[..i]);
                  p.cursors == cursors && p.rows == generated && p.error.None? && calls == old(calls) + p.calls
      {
        cursors, generated, err := DeclarePrize(env, prizes, i, cursors, generated, old(calls));
        if err.Some? {
          StepsStop(env, prizes, i + 1);
          return;
        }
        i := i + 1;
      }
      assert prizes[..i] == prizes;
      err := None;
    }

    /** One turn of the prize loop, for `prizes[i]`: the checks, then the
        settlement. */
    method DeclarePrize(env: Env, prizes: seq<Prize>, i: nat, cursors: Cursors, generated: seq<ResultRow>,
                        ghost before: seq<LedgerCall>)
      returns (cursors': Cursors, generated': seq<ResultRow>, err: Option<DeclareError>)
      requires i < |prizes|
      requires var p := Steps(env, prizes[..i]);
               p.cursors == cursors && p.rows == generated && p.error.None? && calls == before + p.calls
      modifies this`calls
      ensures var p := Steps(env, prizes[..i + 1]);
              cursors' == p.cursors && generated' == p.rows && err == p.error && calls == before + p.calls
    {
      var prize := prizes[i];
      var checked := CheckPrize(env, cursors, prize);
      StepsTurn(env, prizes, i);
      if checked.Err? {
        return cursors, generated, Some(checked.error);
      }
      var (c, next) := checked.value;
      cursors' := next;
      generated' := generated + [RowFor(env, c, prize)];
      err := SettlePrize(env, c, prize);
      Seqs.AppendAssoc(before, Steps(env, prizes[..i]).calls, Settle(env, c, prize).calls);
    }

    /** Settling one validated prize. */
    method SettlePrize(env: Env, c: Category, prize: Prize) returns (err: Option<DeclareError>)
      modifies this`calls
      ensures calls == old(calls) + Settle(env, c, prize).calls && err == Settle(env, c, prize).error
    {
      if !HasPurchase(env.purchases, env.marketId) {
        return None;
      }
      if c == First && FirstListFails(env) {
        return Some(SeriesNotOffered);
      }
      if Malformed(c, prize.ticketNumbers) {
        return Some(MalformedTicket);
      }
      var matched := Matched(env.purchases, env.marketId, env.today, c, prize.ticketNumbers);
      if |matched| > 0 {
        err := PayWinners(matched, c, prize.prizeAmount, env.marketId, env.ledger);
      } else {
        var userIds := Seqs.Distinct(UserIds(MarketPurchases(env.purchases, env.marketId)));
        err := RemoveExposures(userIds, env.marketId, env.market.marketName, env.ledger);
      }
    }

    /** The payout pass: one pass over the matched rows that pays each user
        at its first row and skips the rest. */
    method PayWinners(matched: seq<Purchase>, c: Category, amount: int, marketId: string, ledger: Ledger)
      returns (err: Option<DeclareError>)
      modifies this`calls
      ensures var f := Payouts(matched, Seqs.Distinct(UserIds(matched)), c, amount, marketId, ledger);
              calls == old(calls) + f.calls && err == f.error
    {
      var totals := StakeTotals(matched);
      var processed: set<string> := {};
      for j := 0 to |matched|
        invariant forall u :: u in processed <==> u in UserIds(matched[..j])
        invariant PayoutsDefined(matched, j)
        invariant var f := Payouts(matched, Seqs.Distinct(UserIds(matched[..j])), c, amount, marketId, ledger);
                  calls == old(calls) + f.calls && f.error.None?
      {
        processed, err := PayRow(matched, j, c, amount, marketId, ledger, totals, processed, old(calls));
        if err.Some? {
          PayoutsFinish(matched, j + 1, c, amount, marketId, ledger);
          return;
        }
      }
      assert matched[..|matched|] == matched;
      return None;
    }

    /** One row of the payout pass: a user not yet processed is paid here,
        at its first row, for all its matched rows. */
    method PayRow(matched: seq<Purchase>, j: nat, c: Category, amount: int, marketId: string, ledger: Ledger,
                  totals: map<string, int>, processed: set<string>, ghost before: seq<LedgerCall>)
      returns (processed': set<string>, err: Option<DeclareError>)
      requires j < |matched| && PayoutsDefined(matched, j)
      requires totals == StakeMap(matched)
      requires forall u :: u in processed <==> u in UserIds(matched[..j])
      requires var f := Payouts(matched, Seqs.Distinct(UserIds(matched[..j])), c, amount, marketId, ledger);
               calls == before + f.calls && f.error.None?
      modifies this`calls
      ensures forall u :: u in processed' <==> u in UserIds(matched[..j + 1])
      ensures PayoutsDefined(matched, j + 1)
      ensures var f := Payouts(matched, Seqs.Distinct(UserIds(matched[..j + 1])), c, amount, marketId, ledger);
              calls == before + f.calls && err == f.error
    {
      var row := matched[j];
      var u := row.userId;
      PayoutStep(matched, j, c, amount, marketId, ledger);
      UserIdsSnoc(matched, j);
      processed' := processed + {u};
      if u in processed {
        return processed', None;
      }
      StakeMapOf(matched, u);
      var totalPrize := PrizeFor(c, amount, row.sem);
      var totalPrice := totals[u];
      var totalPrizeForUser := totalPrize * CountOf(matched, u);
      ghost var prev := Payouts(matched, Seqs.Distinct(UserIds(matched[..j])), c, amount, marketId, ledger);
      calls := calls + [UpdateBalance(u, totalPrizeForUser, marketId, totalPrice),
                        ProfitLoss(u, row.userName, marketId, row.marketName, row.number,
                                   totalPrice, row.sem, totalPrizeForUser)];
      Seqs.AppendAssoc(before, prev.calls, UserCalls(matched, u, c, amount, marketId));
      err := if u in ledger.refusesBalance then Some(BalanceRefused(u)) else None;
    }

    /** Each matched user's total stake. */
    method StakeTotals(matched: seq<Purchase>) returns (totals: map<string, int>)
      ensures totals == StakeMap(matched)
    {
      totals := map[];
      var k := 0;
      while k < |matched|
        invariant 0 <= k <= |matched|
        invariant totals == StakeMap(matched[..k])
      {
        var row := matched[k];
        assert matched[..k + 1][..k] == matched[..k];
        var before := if row.userId in totals then totals[row.userId] else 0;
        totals := totals[row.userId := before + row.lotteryPrice];
        k := k + 1;
      }
      assert matched[..k] == matched;
    }

    /** The exposure pass over the distinct purchasers of the market. */
    method RemoveExposures(userIds: seq<string>, marketId: string, marketName: string, ledger: Ledger)
      returns (err: Option<DeclareError>)
      modifies this`calls
      ensures var f := Exposures(userIds, marketId, marketName, ledger);
              calls == old(calls) + f.calls && err == f.error
    {
      var i := 0;
      while i < |userIds|
        invariant 0 <= i <= |userIds|
        invariant var f := Exposures(userIds[..i], marketId, marketName, ledger);
                  calls == old(calls) + f.calls && f.error.None?
      {
        var u := userIds[i];
        assert userIds[..i + 1][..i] == userIds[..i];
        calls := calls + [RemoveExposure(u, marketId, marketName)];
        if u in ledger.refusesExposure {
          ExposuresStop(userIds, i + 1, marketId, marketName, ledger);
          return Some(ExposureRefused(u));
        }
        i := i + 1;
      }
      assert userIds[..i] == userIds;
      return None;
    }
  }

  // ---------------------------------------------------------------------
  // Stopping lemmas used by the controller's early returns

  lemma {:induction false} StepsStop(env: Env, prizes: seq<Prize>, n: nat)
    requires n <= |prizes| && Steps(env, prizes[..n]).error.Some?
    ensures Steps(env, prizes) == Steps(env, prizes[..n])
    decreases |prizes|
  {
    if n < |prizes| {
      var init := prizes[..|prizes| - 1];
      assert init[..n] == prizes[..n];
      StepsStop(env, init, n);
    } else {
      assert prizes[..n] == prizes;
    }
  }

  /** The turn for `prizes[i]` after an error-free prefix: a failed check
      stops the loop with nothing added; a passing one queues the row and
      adds the settlement's calls and error. */
  lemma StepsTurn(env: Env, prizes: seq<Prize>, i: nat)
    requires i < |prizes|
    ensures var p := Steps(env, prizes[..i]);
            var checked := CheckPrize(env, p.cursors, prizes[i]);
            p.error.None? ==>
              Steps(env, prizes[..i + 1])
                == if checked.Err? then p.(error := Some(checked.error))
                   else
                     var c := checked.value.0;
                     var f := Settle(env, c, prizes[i]);
                     Progress(checked.value.1, p.rows + [RowFor(env, c, prizes[i])], p.calls + f.calls, f.error)
  {
    assert prizes[..i + 1][..i] == prizes[..i];
  }

  lemma {:induction false} PayoutsStop(ps: seq<Purchase>, users: seq<string>, n: nat, c: Category, amount: int,
                                       marketId: string, ledger: Ledger)
    requires n <= |users| && forall u :: u in users ==> u in UserIds(ps)
    requires Payouts(ps, users[..n], c, amount, marketId, ledger).error.Some?
    ensures Payouts(ps, users, c, amount, marketId, ledger) == Payouts(ps, users[..n], c, amount, marketId, ledger)
    decreases |users|
  {
    if n < |users| {
      var init := users[..|users| - 1];
      assert init[..n] == users[..n];
      PayoutsStop(ps, init, n, c, amount, marketId, ledger);
    } else {
      assert users[..n] == users;
    }
  }

  lemma {:induction false} ExposuresStop(users: seq<string>, n: nat, marketId: string, marketName: string, ledger: Ledger)
    requires n <= |users| && Exposures(users[..n], marketId, marketName, ledger).error.Some?
    ensures Exposures(users, marketId, marketName, ledger) == Exposures(users[..n], marketId, marketName, ledger)
    decreases |users|
  {
    if n < |users| {
      var init := users[..|users| - 1];
      assert init[..n] == users[..n];
      ExposuresStop(init, n, marketId, marketName, ledger);
    } else {
      assert users[..n] == users;
    }
  }

  predicate PayoutsDefined(ps: seq<Purchase>, j: nat)
  {
    j <= |ps| && forall u :: u in Seqs.Distinct(UserIds(ps[..j])) ==> u in UserIds(ps)
  }

  lemma UserIdsSnoc(ps: seq<Purchase>, j: nat)
    requires j < |ps|
    ensures forall x :: x in UserIds(ps[..j + 1]) <==> x in UserIds(ps[..j]) || x == ps[j].userId
  {
    assert UserIds(ps[..j + 1]) == UserIds(ps[..j]) + [ps[j].userId];
  }

  /** The users of a prefix of the rows are the prefix of the users. */
  lemma UserIdsPrefix(ps: seq<Purchase>, j: nat)
    requires j <= |ps|
    ensures UserIds(ps[..j]) == UserIds(ps)[..j]
    ensures PayoutsDefined(ps, j)
  {
    assert UserIds(ps[..j]) == UserIds(ps)[..j];
    assert forall x :: x in UserIds(ps)[..j] ==> x in UserIds(ps);
  }

  /** A row whose user appears in no earlier row is that user's first row. */
  lemma FirstRowAt(ps: seq<Purchase>, j: nat)
    requires j < |ps| && ps[j].userId !in UserIds(ps[..j])
    ensures ps[j].userId in UserIds(ps) && FirstRowOf(ps, ps[j].userId) == ps[j]
  {
    UserIdsPrefix(ps, j);
    Seqs.FirstIndexAt(UserIds(ps), ps[j].userId, j);
  }

  /** Paying one more user after `users`. */
  lemma PayoutsAppend(ps: seq<Purchase>, users: seq<string>, u: string, c: Category, amount: int, marketId: string, ledger: Ledger)
    requires forall x :: x in users ==> x in UserIds(ps)
    requires u in UserIds(ps)
    ensures var prev := Payouts(ps, users, c, amount, marketId, ledger);
            prev.error.None? ==>
              Payouts(ps, users + [u], c, amount, marketId, ledger)
              == Fanout(prev.calls + UserCalls(ps, u, c, amount, marketId),
                        if u in ledger.refusesBalance then Some(BalanceRefused(u)) else None)
  {
    assert (users + [u])[..|users|] == users;
  }

  /** One row of the payout pass: a user seen before adds nothing; a new
      user is paid at this row, its first. */
  lemma PayoutStep(ps: seq<Purchase>, j: nat, c: Category, amount: int, marketId: string, ledger: Ledger)
    requires j < |ps|
    ensures PayoutsDefined(ps, j) && PayoutsDefined(ps, j + 1)
    ensures var u := ps[j].userId;
            var prev := Payouts(ps, Seqs.Distinct(UserIds(ps[..j])), c, amount, marketId, ledger);
            var next := Payouts(ps, Seqs.Distinct(UserIds(ps[..j + 1])), c, amount, marketId, ledger);
            if u in UserIds(ps[..j]) then next == prev
            else
              && FirstRowOf(ps, u) == ps[j]
              && (prev.error.None? ==>
                   next == Fanout(prev.calls + UserCalls(ps, u, c, amount, marketId),
                                  if u in ledger.refusesBalance then Some(BalanceRefused(u)) else None))
  {
    var u := ps[j].userId;
    var ids := UserIds(ps[..j]);
    UserIdsPrefix(ps, j);
    UserIdsPrefix(ps, j + 1);
    assert UserIds(ps[..j + 1]) == ids + [u];
    Seqs.DistinctSnoc(ids, u);
    if u !in ids {
      FirstRowAt(ps, j);
      PayoutsAppend(ps, Seqs.Distinct(ids), u, c, amount, marketId, ledger);
    }
  }

  /** A refusal while paying the rows up to `n` ends the whole pass. */
  lemma PayoutsFinish(ps: seq<Purchase>, n: nat, c: Category, amount: int, marketId: string, ledger: Ledger)
    requires PayoutsDefined(ps, n)
    requires Payouts(ps, Seqs.Distinct(UserIds(ps[..n])), c, amount, marketId, ledger).error.Some?
    ensures Payouts(ps, Seqs.Distinct(UserIds(ps)), c, amount, marketId, ledger)
            == Payouts(ps, Seqs.Distinct(UserIds(ps[..n])), c, amount, marketId, ledger)
  {
    var all := Seqs.Distinct(UserIds(ps));
    assert UserIds(ps[..n]) == UserIds(ps)[..n];
    Seqs.DistinctPrefix(UserIds(ps), n);
    PayoutsStop(ps, all, |Seqs.Distinct(UserIds(ps[..n]))|, c, amount, marketId, ledger);
  }

  // ---------------------------------------------------------------------
  // Properties of the declaration

  /** The tier-full count is positive exactly when the market has a row of
      the tier. */
  lemma {:induction false} TierRowsDeclared(results: seq<ResultRow>, marketId: string, c: Category)
    ensures TierRows(results, marketId, c) > 0 <==> Declared(results, marketId, c)
    decreases |results|
  {
    if results != [] {
      var init := results[..|results| - 1];
      var n := |results| - 1;
      TierRowsDeclared(init, marketId, c);
      if Declared(init, marketId, c) {
        var k :| 0 <= k < |init| && init[k].marketId == marketId && init[k].category == c;
        assert results[k] == init[k];
      }
      if results[n].marketId == marketId && results[n].category == c {
        assert Declared(results, marketId, c);
      } else if Declared(results, marketId, c) {
        var k :| 0 <= k < |results| && results[k].marketId == marketId && results[k].category == c;
        assert init[k] == results[k];
      }
    }
  }

  /** First Prize can be stored once per market: once a First Prize row
      exists, every further First Prize fails the checks. */
  lemma FirstPrizeOnce(env: Env, cur: Cursors, prize: Prize)
    requires prize.category == Name(First) && Declared(env.results, env.marketId, First)
    ensures CheckPrize(env, cur, prize).Err?
  {
    TierRowsDeclared(env.results, env.marketId, First);
  }

  /** Only the earlier tiers' four-character cursors can refuse a Third,
      Fourth or Fifth Prize: its four-character window never equals the
      five-character values First and Second leave behind. */
  lemma SuffixRuleFourOnly(c: Category, ticket: string, cur: Cursors)
    requires c == Third || c == Fourth || c == Fifth
    requires cur.fiveFirst.Some? ==> |cur.fiveFirst.value| == 5
    requires cur.second.Some? ==> |cur.second.value| == 5
    ensures var v := Some(Last(ticket, 4));
            var open := v != cur.fourFirst && (c != Third ==> v != cur.fourThird) && (c == Fifth ==> v != cur.fourFourth);
            SuffixRule(c, ticket, cur).Ok? <==> open
  {
    var w := Last(ticket, 4);
    assert |w| <= 4;
  }

  /** The cursors a First or Second Prize sets from a ticket of at least five
      characters are five characters long. */
  lemma SuffixRuleFiveCursors(c: Category, ticket: string, cur: Cursors)
    requires |ticket| >= 5 && SuffixRule(c, ticket, cur).Ok?
    requires cur.fiveFirst.Some? ==> |cur.fiveFirst.value| == 5
    requires cur.second.Some? ==> |cur.second.value| == 5
    ensures var next := SuffixRule(c, ticket, cur).value;
            && (next.fiveFirst.Some? ==> |next.fiveFirst.value| == 5)
            && (next.second.Some? ==> |next.second.value| == 5)
  {
  }

  lemma CountOfSnoc(ps: seq<Purchase>, x: Purchase, u: string)
    ensures CountOf(ps + [x], u) == CountOf(ps, u) + (if x.userId == u then 1 else 0)
  {
    assert (ps + [x])[..|ps|] == ps;
  }

  /** The matching query returns each row at most once: a user's matched rows
      never outnumber the user's rows. */
  lemma {:induction false} MatchedCount(ps: seq<Purchase>, marketId: string, today: int, c: Category,
                                        tickets: seq<string>, u: string)
    ensures CountOf(Matched(ps, marketId, today, c, tickets), u) <= CountOf(ps, u)
    decreases |ps|
  {
    if ps != [] {
      var init := ps[..|ps| - 1];
      var last := ps[|ps| - 1];
      MatchedCount(init, marketId, today, c, tickets, u);
      var m := Matched(init, marketId, today, c, tickets);
      if IsWinning(last, marketId, today, c, tickets) {
        CountOfSnoc(m, last, u);
      } else {
        assert Matched(ps, marketId, today, c, tickets) == m;
      }
    }
  }

  /** The users whose balance the calls update, in call order. */
  function BalanceUsers(calls: seq<LedgerCall>): seq<string>
    decreases |calls|
  {
    if calls == [] then []
    else
      var last := calls[|calls| - 1];
      BalanceUsers(calls[..|calls| - 1]) + (if last.UpdateBalance? then [last.userId] else [])
  }

  lemma {:induction false} BalanceUsersAppend(a: seq<LedgerCall>, b: seq<LedgerCall>)
    ensures BalanceUsers(a + b) == BalanceUsers(a) + BalanceUsers(b)
    decreases |b|
  {
    if b != [] {
      var init := b[..|b| - 1];
      assert (a + b)[..|a + b| - 1] == a + init;
      BalanceUsersAppend(a, init);
    } else {
      assert a + b == a;
    }
  }

  /** A user's two calls update that user's balance once. */
  lemma UserCallsBalance(ps: seq<Purchase>, u: string, c: Category, amount: int, marketId: string)
    requires u in UserIds(ps)
    ensures BalanceUsers(UserCalls(ps, u, c, amount, marketId)) == [u]
  {
    var uc := UserCalls(ps, u, c, amount, marketId);
    assert uc[..1] == [uc[0]];
    assert [uc[0]][..0] == [];
    assert BalanceUsers([uc[0]]) == BalanceUsers([]) + [u];
  }

  /** The payout pass updates the balance of each listed user once, in list
      order, as long as the ledger accepts. */
  lemma {:induction false} PayoutsPayEach(ps: seq<Purchase>, users: seq<string>, c: Category, amount: int,
                                          marketId: string, ledger: Ledger)
    requires forall u :: u in users ==> u in UserIds(ps)
    ensures var f := Payouts(ps, users, c, amount, marketId, ledger);
            f.error.None? ==> BalanceUsers(f.calls) == users
    decreases |users|
  {
    if users != [] {
      var n := |users| - 1;
      var init, u := users[..n], users[n];
      PayoutsPayEach(ps, init, c, amount, marketId, ledger);
      var f := Payouts(ps, init, c, amount, marketId, ledger);
      if f.error.None? {
        var uc := UserCalls(ps, u, c, amount, marketId);
        BalanceUsersAppend(f.calls, uc);
        UserCallsBalance(ps, u, c, amount, marketId);
        assert init + [u] == users;
      }
    }
  }

  /** Every balance update of the payout pass carries the user's prize (the
      per-row prize times the user's matched rows) and the user's total
      stake. */
  lemma {:induction false} PayoutsAmounts(ps: seq<Purchase>, users: seq<string>, c: Category, amount: int,
                                          marketId: string, ledger: Ledger)
    requires forall u :: u in users ==> u in UserIds(ps)
    ensures var f := Payouts(ps, users, c, amount, marketId, ledger);
            forall call :: call in f.calls && call.UpdateBalance? ==>
              && call.userId in UserIds(ps)
              && call.prizeAmount == PrizeFor(c, amount, FirstRowOf(ps, call.userId).sem) * CountOf(ps, call.userId)
              && call.lotteryPrice == StakeOf(ps, call.userId)
              && call.marketId == marketId
    decreases |users|
  {
    if users != [] {
      PayoutsAmounts(ps, users[..|users| - 1], c, amount, marketId, ledger);
    }
  }

  /** The exposure pass sends one release per listed user, in list order, as
      long as the ledger accepts. */
  lemma {:induction false} ExposuresEach(users: seq<string>, marketId: string, marketName: string, ledger: Ledger)
    ensures var f := Exposures(users, marketId, marketName, ledger);
            f.error.None? ==>
              |f.calls| == |users|
              && forall k :: 0 <= k < |users| ==> f.calls[k] == RemoveExposure(users[k], marketId, marketName)
    decreases |users|
  {
    if users != [] {
      ExposuresEach(users[..|users| - 1], marketId, marketName, ledger);
    }
  }

  /** A First Prize is not settled when the market's first purchase carries
      a series the market does not offer: the discarded `list` call throws,
      and nothing is paid or released. */
  lemma FirstPrizeSeriesRefused(env: Env, prize: Prize, p: Purchase)
    requires FirstPurchase(env.purchases, env.marketId) == Some(p)
    requires TicketService.SeriesIndex(TicketService.AlphabetOf(env.market), [p.series]).None?
    ensures Settle(env, First, prize) == Fanout([], Some(SeriesNotOffered))
  {
  }

  /** Settling a prize with matching purchases pays each matched user
      exactly once, and no one else. */
  lemma SettlePaysOnce(env: Env, c: Category, prize: Prize)
    requires HasPurchase(env.purchases, env.marketId) && !Malformed(c, prize.ticketNumbers)
    requires Matched(env.purchases, env.marketId, env.today, c, prize.ticketNumbers) != []
    ensures var m := Matched(env.purchases, env.marketId, env.today, c, prize.ticketNumbers);
            var f := Settle(env, c, prize);
            f.error.None? ==>
              && Seqs.NoDuplicates(BalanceUsers(f.calls))
              && forall u :: u in BalanceUsers(f.calls) <==> exists p :: p in m && p.userId == u
  {
    var m := Matched(env.purchases, env.marketId, env.today, c, prize.ticketNumbers);
    var users := Seqs.Distinct(UserIds(m));
    PayoutsPayEach(m, users, c, prize.prizeAmount, env.marketId, env.ledger);
    UsersOfRows(m);
  }

  /** The distinct users of some rows are exactly the users that own one of them. */
  lemma UsersOfRows(m: seq<Purchase>)
    ensures forall u :: u in Seqs.Distinct(UserIds(m)) <==> exists p :: p in m && p.userId == u
  {
    forall u | u in UserIds(m)
      ensures exists p :: p in m && p.userId == u
    {
      var k :| 0 <= k < |UserIds(m)| && UserIds(m)[k] == u;
      assert m[k] in m;
    }
    forall u | exists p :: p in m && p.userId == u
      ensures u in UserIds(m)
    {
      var p :| p in m && p.userId == u;
      var k :| 0 <= k < |m| && m[k] == p;
      assert UserIds(m)[k] == u;
    }
  }

  /** Settling a prize that nothing matches releases the exposure of each
      distinct purchaser of the market once. */
  lemma SettleReleasesOnce(env: Env, c: Category, prize: Prize)
    requires HasPurchase(env.purchases, env.marketId) && !Malformed(c, prize.ticketNumbers)
    requires Matched(env.purchases, env.marketId, env.today, c, prize.ticketNumbers) == []
    ensures var us := Seqs.Distinct(UserIds(MarketPurchases(env.purchases, env.marketId)));
            var f := Settle(env, c, prize);
            f.error.None? ==>
              && |f.calls| == |us|
              && forall k :: 0 <= k < |us| ==> f.calls[k] == RemoveExposure(us[k], env.marketId, env.market.marketName)
  {
    var us := Seqs.Distinct(UserIds(MarketPurchases(env.purchases, env.marketId)));
    ExposuresEach(us, env.marketId, env.market.marketName, env.ledger);
  }

  lemma StepsSnoc(env: Env, prizes: seq<Prize>, i: nat)
    requires i < |prizes|
    ensures var p := Steps(env, prizes[..i]);
            var q := Step(env, p.cursors, prizes[i]);
            Steps(env, prizes[..i + 1])
              == if p.error.Some? then p else Progress(q.cursors, p.rows + q.rows, p.calls + q.calls, q.error)
  {
    assert prizes[..i + 1][..i] == prizes[..i];
  }

  /** The row queued for a prize: its tier, tickets and amount, the market and the day. */
  predicate QueuedRow(env: Env, row: ResultRow, prize: Prize)
  {
    && Name(row.category) == prize.category
    && row.ticketNumbers == prize.ticketNumbers
    && row.prizeAmount == prize.prizeAmount
    && row.marketId == env.marketId
    && row.createdDay == env.today
  }

  /** A turn without an error queues exactly the prize's row. */
  lemma StepRow(env: Env, cur: Cursors, prize: Prize)
    ensures Step(env, cur, prize).error != Some(NoValidTickets)
    ensures var q := Step(env, cur, prize);
            q.error.None? ==> |q.rows| == 1 && QueuedRow(env, q.rows[0], prize)
  {
  }

  /** One row per prize, in order, each the prize's row. */
  predicate RowsFor(env: Env, rows: seq<ResultRow>, prizes: seq<Prize>)
  {
    |rows| == |prizes| && forall k :: 0 <= k < |prizes| ==> QueuedRow(env, rows[k], prizes[k])
  }

  /** Without an error, the prize loop queues one row per prize, in order,
      each naming the prize's tier, tickets and amount, the market and the
      day. */
  lemma {:induction false} StepsRows(env: Env, prizes: seq<Prize>)
    ensures Steps(env, prizes).error != Some(NoValidTickets)
    ensures Steps(env, prizes).error.None? ==> RowsFor(env, Steps(env, prizes).rows, prizes)
    decreases |prizes|
  {
    if prizes != [] {
      var n := |prizes| - 1;
      var p := Steps(env, prizes[..n]);
      StepsRows(env, prizes[..n]);
      StepRow(env, p.cursors, prizes[n]);
      if p.error.None? {
        var q := Step(env, p.cursors, prizes[n]);
        if q.error.None? {
          RowsLast(env, prizes, p.rows, q.rows);
        }
      }
    }
  }

  /** Rows matching all prizes but the last, and then the last prize's row. */
  lemma RowsLast(env: Env, prizes: seq<Prize>, rows: seq<ResultRow>, more: seq<ResultRow>)
    requires prizes != [] && RowsFor(env, rows, prizes[..|prizes| - 1])
    requires |more| == 1 && QueuedRow(env, more[0], prizes[|prizes| - 1])
    ensures RowsFor(env, rows + more, prizes)
  {
    var n := |prizes| - 1;
    forall k | 0 <= k < |prizes|
      ensures QueuedRow(env, (rows + more)[k], prizes[k])
    {
      if k < n {
        assert (rows + more)[k] == rows[k] && prizes[..n][k] == prizes[k];
      }
    }
  }

  /** A refused declaration leaves the three tables as they were (the ledger
      calls it already made stay made). */
  lemma DeclareRefused(markets: seq<TicketRange>, results: seq<ResultRow>, purchases: seq<Purchase>,
                       ledger: Ledger, marketId: string, prizes: seq<Prize>, today: int)
    ensures var o := Declare(markets, results, purchases, ledger, marketId, prizes, today);
            o.result.Err? ==> o.markets == markets && o.results == results && o.purchases == purchases
  {
  }

  /** The "no valid tickets" refusal cannot occur: a call that names all
      five tiers has at least one prize, and an error-free loop queues a row
      for each. */
  lemma NoValidTicketsUnreachable(markets: seq<TicketRange>, results: seq<ResultRow>, purchases: seq<Purchase>,
                                  ledger: Ledger, marketId: string, prizes: seq<Prize>, today: int)
    ensures Declare(markets, results, purchases, ledger, marketId, prizes, today).result != Err(NoValidTickets)
  {
    var found := TicketService.FindRange(markets, marketId);
    if found.Some? && Missing(prizes) == [] {
      var env := Env(found.value, results, purchases, ledger, marketId, today);
      StepsRows(env, prizes);
      assert First !in Missing(prizes);
      var k :| 0 <= k < |prizes| && prizes[k].category == Name(First);
      var p := Steps(env, prizes);
      assert p.error.None? ==> |p.rows| > 0;
    }
  }

  /** An accepted declaration names all five tiers and appends one row per
      prize, for the market and today. */
  lemma DeclareAcceptedRows(markets: seq<TicketRange>, results: seq<ResultRow>, purchases: seq<Purchase>,
                            ledger: Ledger, marketId: string, prizes: seq<Prize>, today: int)
    ensures var o := Declare(markets, results, purchases, ledger, marketId, prizes, today);
            o.result.Ok? ==>
              && (forall c :: Provided(prizes, c))
              && |o.result.value| == |prizes|
              && o.results == results + o.result.value
              && (forall r :: r in o.result.value ==> r.marketId == marketId && r.createdDay == today)
  {
    var found := TicketService.FindRange(markets, marketId);
    if found.Some? && Missing(prizes) == [] {
      var env := Env(found.value, results, purchases, ledger, marketId, today);
      StepsRows(env, prizes);
      var p := Steps(env, prizes);
      if p.error.None? {
        forall r | r in p.rows
          ensures r.marketId == marketId && r.createdDay == today
        {
          var k :| 0 <= k < |p.rows| && p.rows[k] == r;
        }
      }
    }
  }

  /** An accepted declaration sets `winReference` on the market and
      announces all of its purchases, and flags the market won and inactive
      exactly when every tier now has a row; other markets and purchases are
      untouched. */
  lemma DeclareAcceptedFlags(markets: seq<TicketRange>, results: seq<ResultRow>, purchases: seq<Purchase>,
                             ledger: Ledger, marketId: string, prizes: seq<Prize>, today: int)
    ensures var o := Declare(markets, results, purchases, ledger, marketId, prizes, today);
            o.result.Ok? ==>
              && |o.markets| == |markets| && |o.purchases| == |purchases|
              && (forall k :: 0 <= k < |markets| && markets[k].marketId != marketId ==> o.markets[k] == markets[k])
              && (forall k :: 0 <= k < |markets| && markets[k].marketId == marketId ==>
                    o.markets[k] == if AllDeclared(o.results, marketId)
                                    then markets[k].(isActive := false, isWin := true, winReference := true)
                                    else markets[k].(winReference := true))
              && (forall k :: 0 <= k < |purchases| ==>
                    o.purchases[k] == if purchases[k].marketId == marketId
                                      then purchases[k].(resultAnnouncement := true) else purchases[k])
  {
    var o := Declare(markets, results, purchases, ledger, marketId, prizes, today);
    if o.result.Ok? {
      DeclareAcceptedShape(markets, results, purchases, ledger, marketId, prizes, today);
      FlagUpdates(markets, purchases, marketId, AllDeclared(o.results, marketId));
    }
  }

  /** An accepted declaration's tables are the three updates applied to the old ones. */
  lemma DeclareAcceptedShape(markets: seq<TicketRange>, results: seq<ResultRow>, purchases: seq<Purchase>,
                             ledger: Ledger, marketId: string, prizes: seq<Prize>, today: int)
    ensures var o := Declare(markets, results, purchases, ledger, marketId, prizes, today);
            o.result.Ok? ==>
              && o.markets == SetWinReference(if AllDeclared(o.results, marketId) then SetWin(markets, marketId) else markets,
                                              marketId)
              && o.purchases == Announce(purchases, marketId)
  {
  }

  /** The three updates of an accepted declaration, record by record. */
  lemma FlagUpdates(markets: seq<TicketRange>, purchases: seq<Purchase>, marketId: string, won: bool)
    ensures var ms := SetWinReference(if won then SetWin(markets, marketId) else markets, marketId);
            var ps := Announce(purchases, marketId);
            && |ms| == |markets| && |ps| == |purchases|
            && (forall k :: 0 <= k < |markets| && markets[k].marketId != marketId ==> ms[k] == markets[k])
            && (forall k :: 0 <= k < |markets| && markets[k].marketId == marketId ==>
                  ms[k] == if won then markets[k].(isActive := false, isWin := true, winReference := true)
                           else markets[k].(winReference := true))
            && (forall k :: 0 <= k < |purchases| ==>
                  ps[k] == if purchases[k].marketId == marketId
                           then purchases[k].(resultAnnouncement := true) else purchases[k])
  {
  }
}
