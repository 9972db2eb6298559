/** Ticket expansion: a purchase seeded by (group, series, number, sem)
    stands for `sem` tickets "GG S NNNNN". The series letter advances one
    place per ticket through the market's alphabet (wrapping at its end), and
    every `T` tickets the group advances (wrapping inside the market's group
    range) and the series restarts at the seed letter. */
module TicketService {
  import opened Wrappers
  import opened Text
  import opened Records
  import Seqs
  import Series
  import Arith

  datatype ListError = TicketNotFound | InvalidSeries

  datatype PriceError = RangeNotFound

  /** `TicketRange.findOne({ where: { marketId } })`: the first row of the market. */
  function FindRange(ranges: seq<TicketRange>, marketId: string): (r: Option<TicketRange>)
    ensures r.None? <==> forall k :: 0 <= k < |ranges| ==> ranges[k].marketId != marketId
    ensures r.Some? ==> exists k :: 0 <= k < |ranges| && ranges[k] == r.value
                          && r.value.marketId == marketId
                          && forall j :: 0 <= j < k ==> ranges[j].marketId != marketId
  {
    if ranges == [] then None
    else if ranges[0].marketId == marketId then Some(ranges[0])
    else FindRange(ranges[1..], marketId)
  }

  /** The number of tickets per group block: 5 for sem 5 and 25, 10 otherwise. */
  function Threshold(sem: int): (t: nat)
    ensures t == 5 || t == 10
    ensures t == 5 <==> sem == 5 || sem == 25
  {
    if sem == 5 || sem == 25 then 5 else 10
  }

  /** The market's series alphabet: its letters by code, without F, I and O. */
  function AlphabetOf(r: TicketRange): seq<char>
  {
    Series.Alphabet(r.seriesStart, r.seriesEnd)
  }

  /** `allSeries.indexOf(series)`, where `None` stands for -1. */
  function SeriesIndex(alphabet: seq<char>, series: string): (r: Option<nat>)
    ensures r.Some? <==> |series| == 1 && series[0] in alphabet
    ensures r.Some? ==> r.value < |alphabet| && alphabet[r.value] == series[0]
                        && series[0] !in alphabet[..r.value]
  {
    if |series| == 1 && series[0] in alphabet then Some(Seqs.FirstIndex(alphabet, series[0]))
    else None
  }

  predicate GroupInRange(r: TicketRange, group: int)
  {
    r.groupStart <= group <= r.groupEnd
  }

  /** `parseInt(number)` lies between `parseInt(number_start)` and
      `parseInt(number_end)`; a NaN on either side makes a comparison false. */
  predicate NumberInRange(number: string, low: string, high: string)
  {
    match (ParseInt(number), ParseInt(low), ParseInt(high))
    case (Some(n), Some(lo), Some(hi)) => lo <= n <= hi
    case _ => false
  }

  function Pad2(group: int): string
  {
    PadStart(IntToString(group), 2, '0')
  }

  function Pad5(number: string): string
  {
    PadStart(number, 5, '0')
  }

  /** One ticket: the zero-padded group, the series letter and the zero-padded number. */
  function Format(group: int, letter: char, number: string): string
  {
    Pad2(group) + " " + [letter] + " " + Pad5(number)
  }

  /** The group of the `i`-th ticket: the seed group moved on by one per
      completed block, wrapping inside the market's range. */
  function GroupAt(r: TicketRange, group: int, t: nat, i: nat): int
    requires t > 0 && r.groupStart <= r.groupEnd
  {
    r.groupStart + (group - r.groupStart + i / t) % (r.groupEnd - r.groupStart + 1)
  }

  /** The alphabet position of the `i`-th ticket: the seed position moved on
      by the ticket's place inside its block, wrapping at the alphabet's end. */
  function SeriesAt(s0: nat, t: nat, len: nat, i: nat): (k: nat)
    requires t > 0 && len > 0
    ensures k < len
  {
    (s0 + i % t) % len
  }

  function Ticket(r: TicketRange, alphabet: seq<char>, s0: nat, group: int, number: string, sem: int, i: nat): string
    requires s0 < |alphabet| && GroupInRange(r, group)
  {
    var t := Threshold(sem);
    Format(GroupAt(r, group, t, i), alphabet[SeriesAt(s0, t, |alphabet|, i)], number)
  }

  /** What `list` returns, in closed form: the errors for a missing market
      and an unknown series; then either all `sem` tickets (the seed group
      in range and the number in range) or none. */
  function Tickets(range: Option<TicketRange>, group: int, series: string, number: string, sem: int)
    : Result<seq<string>, ListError>
  {
    match range
    case None => Err(TicketNotFound)
    case Some(r) =>
      var alphabet := AlphabetOf(r);
      match SeriesIndex(alphabet, series)
      case None => Err(InvalidSeries)
      case Some(s0) =>
        if GroupInRange(r, group) && NumberInRange(number, r.numberStart, r.numberEnd) && sem > 0 then
          Ok(Expansion(r, alphabet, s0, group, number, sem, sem))
        else Ok([])
  }

  /** The first `n` tickets of the expansion: ticket `i` is the closed-form ticket `i`. */
  function Expansion(r: TicketRange, alphabet: seq<char>, s0: nat, group: int, number: string, sem: int, n: nat)
    : (ts: seq<string>)
    requires s0 < |alphabet| && GroupInRange(r, group)
  {
    seq(n, i requires 0 <= i < n => Ticket(r, alphabet, s0, group, number, sem, i))
  }

  /** One more step of the expansion appends the next ticket. */
  lemma ExpansionSnoc(r: TicketRange, alphabet: seq<char>, s0: nat, group: int, number: string, sem: int, n: nat)
    requires s0 < |alphabet| && GroupInRange(r, group)
    ensures Expansion(r, alphabet, s0, group, number, sem, n + 1)
            == Expansion(r, alphabet, s0, group, number, sem, n) + [Ticket(r, alphabet, s0, group, number, sem, n)]
  {
    var e := Expansion(r, alphabet, s0, group, number, sem, n);
    var x := Ticket(r, alphabet, s0, group, number, sem, n);
    var f := Expansion(r, alphabet, s0, group, number, sem, n + 1);
    assert |f| == |e + [x]|;
    forall k | 0 <= k < n + 1
      ensures f[k] == (e + [x])[k]
    {
      if k < n {
        assert f[k] == e[k];
      }
    }
  }

  /** `TicketService.list`, step by step as the service runs it. */
  method List(ranges: seq<TicketRange>, group: int, series: string, number: string, sem: int, marketId: string)
    returns (result: Result<seq<string>, ListError>)
    ensures result == Tickets(FindRange(ranges, marketId), group, series, number, sem)
  {
    var found := FindRange(ranges, marketId);
    if found.None? {
      return Err(TicketNotFound);
    }
    var r := found.value;
    var allSeries := Series.Alphabet(r.seriesStart, r.seriesEnd);
    var start := SeriesIndex(allSeries, series);
    if start.None? {
      return Err(InvalidSeries);
    }
    var tickets := Expand(r, allSeries, start.value, group, number, sem);
    return Ok(tickets);
  }

  /** The loop of `list`: walks `sem` steps, emitting a ticket per step while
      the current group is in range, advancing the series letter each step
      and the group each block. */
  method Expand(r: TicketRange, allSeries: seq<char>, s0: nat, group: int, number: string, sem: int)
    returns (tickets: seq<string>)
    requires s0 < |allSeries|
    ensures tickets == if GroupInRange(r, group) && NumberInRange(number, r.numberStart, r.numberEnd) && sem > 0
                       then Expansion(r, allSeries, s0, group, number, sem, sem)
                       else []
  {
    var currentSeriesIndex := s0;
    var currentGroup := group;
    tickets := [];
    var threshold := Threshold(sem);
    var inRange := GroupInRange(r, group);
    var numberOk := NumberInRange(number, r.numberStart, r.numberEnd);
    var i := 0;
    while i < sem
      invariant 0 <= i && (i <= sem || i == 0)
      invariant inRange ==> currentGroup == GroupAt(r, group, threshold, i)
                            && currentSeriesIndex == SeriesAt(s0, threshold, |allSeries|, i)
      invariant !inRange ==> currentGroup == group
      invariant tickets == if inRange && numberOk then Expansion(r, allSeries, s0, group, number, sem, i) else []
    {
      if r.groupStart <= currentGroup && currentGroup <= r.groupEnd {
        if numberOk {
          assert inRange;
          assert Format(currentGroup, allSeries[currentSeriesIndex], number) == Ticket(r, allSeries, s0, group, number, sem, i);
          ExpansionSnoc(r, allSeries, s0, group, number, sem, i);
          tickets := tickets + [Format(currentGroup, allSeries[currentSeriesIndex], number)];
        }
        currentSeriesIndex := currentSeriesIndex + 1;
        if currentSeriesIndex >= |allSeries| {
          currentSeriesIndex := 0;
        }
        if (i + 1) % threshold == 0 {
          currentGroup := currentGroup + 1;
          if currentGroup > r.groupEnd {
            currentGroup := r.groupStart;
          }
          currentSeriesIndex := s0;
        }
        StepState(r, group, s0, threshold, |allSeries|, i);
      }
      i := i + 1;
    }
  }

  /** The state the loop reaches after one more ticket, in closed form. */
  lemma StepState(r: TicketRange, group: int, s0: nat, t: nat, len: nat, i: nat)
    requires t > 0 && len > 0 && s0 < len && GroupInRange(r, group)
    ensures var g, k := GroupAt(r, group, t, i), SeriesAt(s0, t, len, i);
            var k' := if k + 1 >= len then 0 else k + 1;
            var g' := if g + 1 > r.groupEnd then r.groupStart else g + 1;
            if (i + 1) % t == 0
            then GroupAt(r, group, t, i + 1) == g' && SeriesAt(s0, t, len, i + 1) == s0
            else GroupAt(r, group, t, i + 1) == g && SeriesAt(s0, t, len, i + 1) == k'
  {
    var n := r.groupEnd - r.groupStart + 1;
    Arith.StepDiv(i, t);
    Arith.ModSucc(group - r.groupStart + i / t, n);
    Arith.ModSucc(s0 + i % t, len);
    Arith.DivModUnique(s0, len, 0, s0);
  }

  /** `calculatePrice`: the market's price times sem, or a returned (not thrown)
      error value for a missing market. */
  function CalculatePrice(ranges: seq<TicketRange>, marketId: string, sem: int): (r: Result<int, PriceError>)
    ensures r.Err? <==> FindRange(ranges, marketId).None?
    ensures r.Ok? ==> r.value == FindRange(ranges, marketId).value.price * sem
  {
    match FindRange(ranges, marketId)
    case None => Err(RangeNotFound)
    case Some(range) => Ok(range.price * sem)
  }

  // ---------------------------------------------------------------------
  // Properties of the expansion

  /** All or nothing: `sem` tickets exactly when the seed group and the seed
      number are in range, none otherwise; the errors exactly for a missing
      market or a series outside the alphabet. */
  lemma TicketsCount(range: Option<TicketRange>, group: int, series: string, number: string, sem: int)
    ensures Tickets(range, group, series, number, sem) == Err(TicketNotFound) <==> range.None?
    ensures Tickets(range, group, series, number, sem) == Err(InvalidSeries)
            <==> range.Some? && !(|series| == 1 && series[0] in AlphabetOf(range.value))
    ensures var res := Tickets(range, group, series, number, sem);
            res.Ok? ==> (|res.value| == sem || res.value == [])
    ensures var res := Tickets(range, group, series, number, sem);
            res.Ok? && sem > 0 ==>
              (|res.value| == sem <==> GroupInRange(range.value, group)
                                       && NumberInRange(number, range.value.numberStart, range.value.numberEnd))
  {
  }

  /** The alphabet holds no F, I or O, so such a series is always refused. */
  lemma ExcludedSeriesRefused(range: TicketRange, group: int, c: char, number: string, sem: int)
    requires Series.Excluded(c)
    ensures c !in AlphabetOf(range)
    ensures Tickets(Some(range), group, [c], number, sem) == Err(InvalidSeries)
  {
  }

  /** Every ticket has the shape of the closed form: its group stays inside
      the market's range, its letter is an allowed letter of the range, and
      all tickets share the padded number. */
  lemma TicketShape(range: TicketRange, group: int, series: string, number: string, sem: int, i: nat)
    requires Tickets(Some(range), group, series, number, sem).Ok?
    requires i < |Tickets(Some(range), group, series, number, sem).value|
    ensures var alphabet := AlphabetOf(range);
            var s0 := SeriesIndex(alphabet, series).value;
            var t := Threshold(sem);
            var g := GroupAt(range, group, t, i);
            var c := alphabet[SeriesAt(s0, t, |alphabet|, i)];
            && Tickets(Some(range), group, series, number, sem).value[i] == Format(g, c, number)
            && range.groupStart <= g <= range.groupEnd
            && range.seriesStart <= c <= range.seriesEnd && !Series.Excluded(c)
  {
    var alphabet := AlphabetOf(range);
    var s0 := SeriesIndex(alphabet, series).value;
    var t := Threshold(sem);
    var ts := Tickets(Some(range), group, series, number, sem).value;
    assert ts == Expansion(range, alphabet, s0, group, number, sem, sem);
    var c := alphabet[SeriesAt(s0, t, |alphabet|, i)];
    assert c in alphabet;
  }

  /** Zero-padding `String(g)` to two characters loses nothing: a minus sign
      leads exactly for negative groups, and the digits read back. */
  lemma Pad2Sign(g: int)
    ensures |Pad2(g)| >= 2 && (Pad2(g)[0] == '-' <==> g < 0)
  {
    var s := IntToString(g);
    var p := Pad2(g);
    if g >= 0 {
      assert p[0] == '0' || p[0] == s[0];
    }
  }

  lemma {:induction false} Pad2Injective(a: int, b: int)
    requires Pad2(a) == Pad2(b)
    ensures a == b
  {
    Pad2SameSign(a, b);
    if a < 0 {
      Pad2NegativeInjective(a, b);
    } else {
      Pad2NonNegativeInjective(a, b);
    }
  }

  lemma Pad2SameSign(a: int, b: int)
    requires Pad2(a) == Pad2(b)
    ensures a < 0 <==> b < 0
  {
    Pad2Sign(a);
    Pad2Sign(b);
  }

  lemma Pad2NegativeInjective(a: int, b: int)
    requires a < 0 && b < 0 && Pad2(a) == Pad2(b)
    ensures a == b
  {
    Pad2Negative(a);
    Pad2Negative(b);
    NatDigitsInjective(-a, -b);
  }

  lemma Pad2NonNegativeInjective(a: int, b: int)
    requires a >= 0 && b >= 0 && Pad2(a) == Pad2(b)
    ensures a == b
  {
    Pad2Reads(a);
    Pad2Reads(b);
  }

  /** A non-negative group reads back from its padded form. */
  lemma Pad2Reads(g: int)
    requires g >= 0
    ensures ParseInt(Pad2(g)) == Some(g)
  {
    ParseIntPadded(g, 2);
  }

  /** A negative group is already two characters long: padding leaves its digits after the sign. */
  lemma Pad2Negative(g: int)
    requires g < 0
    ensures Pad2(g)[1..] == NatDigits(-g)
  {
    assert Pad2(g) == IntToString(g);
  }

  /** Two tickets with the same number are equal only when their groups and
      letters are equal. */
  lemma {:induction false} FormatInjective(g1: int, c1: char, g2: int, c2: char, number: string)
    requires Format(g1, c1, number) == Format(g2, c2, number)
    ensures g1 == g2 && c1 == c2
  {
    JoinedInjective(Pad2(g1), c1, Pad2(g2), c2, Pad5(number));
    Pad2Injective(g1, g2);
  }

  lemma JoinedInjective(p1: string, c1: char, p2: string, c2: char, q: string)
    requires p1 + " " + [c1] + " " + q == p2 + " " + [c2] + " " + q
    ensures p1 == p2 && c1 == c2
  {
    var s := p1 + " " + [c1] + " " + q;
    assert |p1| == |p2|;
    assert s[..|p1|] == p1;
    assert (p2 + " " + [c2] + " " + q)[..|p2|] == p2;
    assert s[|p1| + 1] == c1;
    assert (p2 + " " + [c2] + " " + q)[|p2| + 1] == c2;
  }

  /** Inside one block of `T` tickets all tickets differ when the block fits
      in the alphabet: their letters are distinct places of an increasing alphabet. */
  lemma {:induction false} BlockDistinct(r: TicketRange, alphabet: seq<char>, s0: nat, group: int, number: string, sem: int, i: nat, j: nat)
    requires s0 < |alphabet| && GroupInRange(r, group) && Series.Increasing(alphabet)
    requires i != j && i / Threshold(sem) == j / Threshold(sem)
    requires Threshold(sem) <= |alphabet|
    ensures Ticket(r, alphabet, s0, group, number, sem, i) != Ticket(r, alphabet, s0, group, number, sem, j)
  {
    var t := Threshold(sem);
    LettersDiffer(alphabet, s0, t, i, j);
    TicketsDiffer(r, alphabet, s0, group, number, sem, i, j);
  }

  /** Two places of one block land on different letters of an increasing alphabet. */
  lemma LettersDiffer(alphabet: seq<char>, s0: nat, t: nat, i: nat, j: nat)
    requires s0 < |alphabet| && Series.Increasing(alphabet) && 0 < t <= |alphabet|
    requires i != j && i / t == j / t
    ensures alphabet[SeriesAt(s0, t, |alphabet|, i)] != alphabet[SeriesAt(s0, t, |alphabet|, j)]
  {
    assert i == (i / t) * t + i % t && j == (j / t) * t + j % t;
    Arith.ModDistinct(s0, i % t, j % t, |alphabet|);
    var ki, kj := SeriesAt(s0, t, |alphabet|, i), SeriesAt(s0, t, |alphabet|, j);
    assert ki < kj || kj < ki;
  }

  /** Tickets whose groups or letters differ are different tickets. */
  lemma TicketsDiffer(r: TicketRange, alphabet: seq<char>, s0: nat, group: int, number: string, sem: int, i: nat, j: nat)
    requires s0 < |alphabet| && GroupInRange(r, group)
    requires var t := Threshold(sem);
             GroupAt(r, group, t, i) != GroupAt(r, group, t, j)
             || alphabet[SeriesAt(s0, t, |alphabet|, i)] != alphabet[SeriesAt(s0, t, |alphabet|, j)]
    ensures Ticket(r, alphabet, s0, group, number, sem, i) != Ticket(r, alphabet, s0, group, number, sem, j)
  {
    var t := Threshold(sem);
    if Ticket(r, alphabet, s0, group, number, sem, i) == Ticket(r, alphabet, s0, group, number, sem, j) {
      FormatInjective(GroupAt(r, group, t, i), alphabet[SeriesAt(s0, t, |alphabet|, i)],
                      GroupAt(r, group, t, j), alphabet[SeriesAt(s0, t, |alphabet|, j)], number);
    }
  }

  /** Tickets of different blocks differ when the blocks, `ceil(sem / T)` of
      them, fit in the group range: their groups are distinct. */
  lemma {:induction false} BlocksDistinct(r: TicketRange, alphabet: seq<char>, s0: nat, group: int, number: string, sem: int, i: nat, j: nat)
    requires s0 < |alphabet| && GroupInRange(r, group)
    requires i < sem && j < sem && i / Threshold(sem) != j / Threshold(sem)
    requires (sem + Threshold(sem) - 1) / Threshold(sem) <= r.groupEnd - r.groupStart + 1
    ensures Ticket(r, alphabet, s0, group, number, sem, i) != Ticket(r, alphabet, s0, group, number, sem, j)
  {
    GroupsDiffer(r, group, Threshold(sem), sem, i, j);
    TicketsDiffer(r, alphabet, s0, group, number, sem, i, j);
  }

  /** Different blocks land on different groups while the blocks fit in the range. */
  lemma GroupsDiffer(r: TicketRange, group: int, t: nat, sem: int, i: nat, j: nat)
    requires GroupInRange(r, group) && t > 0
    requires i < sem && j < sem && i / t != j / t
    requires (sem + t - 1) / t <= r.groupEnd - r.groupStart + 1
    ensures GroupAt(r, group, t, i) != GroupAt(r, group, t, j)
  {
    Arith.QuotientBelowCeil(i, sem, t);
    Arith.QuotientBelowCeil(j, sem, t);
    Arith.ModDistinct(group - r.groupStart, i / t, j / t, r.groupEnd - r.groupStart + 1);
  }

  /** All `sem` tickets of a purchase differ when a block fits in the
      alphabet and the blocks fit in the group range. */
  lemma AllDistinct(range: TicketRange, group: int, series: string, number: string, sem: int)
    requires Tickets(Some(range), group, series, number, sem).Ok?
    requires Threshold(sem) <= |AlphabetOf(range)|
    requires (sem + Threshold(sem) - 1) / Threshold(sem) <= range.groupEnd - range.groupStart + 1
    ensures Seqs.NoDuplicates(Tickets(Some(range), group, series, number, sem).value)
  {
    var ts := Tickets(Some(range), group, series, number, sem).value;
    if ts != [] {
      var alphabet := AlphabetOf(range);
      var s0 := SeriesIndex(alphabet, series).value;
      var t := Threshold(sem);
      assert ts == Expansion(range, alphabet, s0, group, number, sem, sem);
      forall i, j | 0 <= i < j < |ts|
        ensures ts[i] != ts[j]
      {
        if i / t == j / t {
          BlockDistinct(range, alphabet, s0, group, number, sem, i, j);
        } else {
          BlocksDistinct(range, alphabet, s0, group, number, sem, i, j);
        }
      }
    }
  }

  /** A ticket whose fields hold no space splits back into its three fields,
      and the group and number fields read back with `parseInt`. */
  lemma TicketFields(group: int, letter: char, number: string)
    requires letter != ' ' && ' ' !in number
    ensures Split(Format(group, letter, number), ' ') == [Pad2(group), [letter], Pad5(number)]
    ensures group >= 0 ==> ParseInt(Pad2(group)) == Some(group)
  {
    Pad2NoSpace(group);
    Pad5NoSpace(number);
    SplitThree(Pad2(group), [letter], Pad5(number));
    if group >= 0 {
      ParseIntPadded(group, 2);
    }
  }

  lemma Pad2NoSpace(group: int)
    ensures ' ' !in Pad2(group)
  {
    var p := Pad2(group);
    var d := if group < 0 then NatDigits(-group) else NatDigits(group);
    assert forall k :: 0 <= k < |d| ==> d[k] != ' ';
    if group < 0 {
      assert p == "-" + d;
    } else {
      assert p == seq(|p| - |d|, _ => '0') + d;
    }
  }

  lemma Pad5NoSpace(number: string)
    requires ' ' !in number
    ensures ' ' !in Pad5(number)
  {
    var q := Pad5(number);
    assert q == seq(|q| - |number|, _ => '0') + number;
  }

  /** The price charged for an admitted purchase is the market price times
      the number of tickets it expands to. */
  lemma PriceMatchesTickets(ranges: seq<TicketRange>, marketId: string, group: int, series: string, number: string, sem: int)
    requires Tickets(FindRange(ranges, marketId), group, series, number, sem).Ok?
    requires Tickets(FindRange(ranges, marketId), group, series, number, sem).value != []
    ensures CalculatePrice(ranges, marketId, sem)
            == Ok(FindRange(ranges, marketId).value.price
                  * |Tickets(FindRange(ranges, marketId), group, series, number, sem).value|)
  {
  }
}
