/** The frontend's range generators and form checks: the series, group and
    number pickers, the filter lists, the hour of a 12-hour time, the digit-wise
    maximum of two numbers and the prize form's duplicate check. */
module Helper {
  import opened Wrappers
  import opened Text
  import Seqs
  import Series
  import TicketService

  // ---------------------------------------------------------------------
  // generateSeries

  /** The letters A to Z without I, F and O, as one-letter strings. */
  function Letters(): (r: seq<char>)
    ensures Series.Increasing(r)
    ensures forall c :: c in r <==> 'A' <= c <= 'Z' && !Series.Excluded(c)
  {
    Series.Alphabet('A', 'Z')
  }

  /** `generateSeries`: the letters from the start to the end inclusive, or
      `null` for a bound outside the letters or a start after the end. */
  function GenerateSeries(seriesStart: string, seriesEnd: string): Option<seq<char>>
  {
    match (TicketService.SeriesIndex(Letters(), seriesStart), TicketService.SeriesIndex(Letters(), seriesEnd))
    case (Some(i), Some(j)) => if i > j then None else Some(Letters()[i..j + 1])
    case _ => None
  }

  /** `null` exactly for a bound that is not one allowed letter, or a start
      that comes after the end; otherwise one letter per place between them. */
  lemma GenerateSeriesNull(seriesStart: string, seriesEnd: string)
    ensures GenerateSeries(seriesStart, seriesEnd).None?
            <==> !(|seriesStart| == 1 && seriesStart[0] in Letters())
                 || !(|seriesEnd| == 1 && seriesEnd[0] in Letters())
                 || seriesStart[0] > seriesEnd[0]
    ensures var r := GenerateSeries(seriesStart, seriesEnd);
            r.Some? ==> |r.value| == Seqs.FirstIndex(Letters(), seriesEnd[0]) - Seqs.FirstIndex(Letters(), seriesStart[0]) + 1
  {
    var l := Letters();
    if |seriesStart| == 1 && seriesStart[0] in l && |seriesEnd| == 1 && seriesEnd[0] in l {
      var i := Seqs.FirstIndex(l, seriesStart[0]);
      var j := Seqs.FirstIndex(l, seriesEnd[0]);
      assert i > j <==> l[i] > l[j] by {
        if i > j { assert l[j] < l[i]; }
        if i < j { assert l[i] < l[j]; }
      }
    }
  }

  /** Between two allowed letters in order, the backend's market alphabet and
      the frontend's series picker agree. */
  lemma SeriesAgrees(start: char, end: char)
    requires start in Letters() && end in Letters() && start <= end
    ensures GenerateSeries([start], [end]) == Some(Series.Alphabet(start, end))
  {
    var l := Letters();
    var i := Seqs.FirstIndex(l, start);
    var j := Seqs.FirstIndex(l, end);
    SeriesSlice(start, end);
    var slice := l[i..j + 1];
    Series.IncreasingSliceElements(l, i, j);
    IncreasingSlice(l, i, j);
    forall c
      ensures c in slice <==> c in Series.Alphabet(start, end)
    {
      assert c in slice <==> c in l && start <= c <= end;
    }
    Series.IncreasingUnique(slice, Series.Alphabet(start, end));
  }

  lemma SeriesSlice(start: char, end: char)
    requires start in Letters() && end in Letters() && start <= end
    ensures Seqs.FirstIndex(Letters(), start) <= Seqs.FirstIndex(Letters(), end)
    ensures GenerateSeries([start], [end])
            == Some(Letters()[Seqs.FirstIndex(Letters(), start)..Seqs.FirstIndex(Letters(), end) + 1])
  {
    var l := Letters();
    var i := Seqs.FirstIndex(l, start);
    var j := Seqs.FirstIndex(l, end);
    IncreasingOrder(l, i, j);
    assert [start][0] == start && [end][0] == end;
    assert TicketService.SeriesIndex(l, [start]) == Some(i);
    assert TicketService.SeriesIndex(l, [end]) == Some(j);
  }

  lemma IncreasingOrder(l: seq<char>, i: nat, j: nat)
    requires Series.Increasing(l) && i < |l| && j < |l| && l[i] <= l[j]
    ensures i <= j
  {
  }

  lemma IncreasingSlice(l: seq<char>, i: nat, j: nat)
    requires Series.Increasing(l) && i <= j < |l|
    ensures Series.Increasing(l[i..j + 1])
  {
    var slice := l[i..j + 1];
    forall a, b | 0 <= a < b < |slice|
      ensures slice[a] < slice[b]
    {
      assert slice[a] == l[i + a] && slice[b] == l[i + b];
    }
  }

  // ---------------------------------------------------------------------
  // generateGroups, generateNumbers, generateFilterData

  function Abs(x: int): nat
  {
    if x < 0 then -x else x
  }

  /** `generateGroups`: `|end - start| + 1` groups counted up from `start`, as text. */
  function GenerateGroups(start: int, end: int): (r: seq<string>)
    ensures |r| == Abs(end - start) + 1
  {
    seq(Abs(end - start) + 1, i requires 0 <= i <= Abs(end - start) => IntToString(i + start))
  }

  /** The groups read back as the values `start`, `start + 1`, ... even when
      `end` is below `start`, so the range never counts down to `end`. */
  lemma GroupsCountUp(start: nat, end: int, i: nat)
    requires i < |GenerateGroups(start, end)|
    ensures ParseInt(GenerateGroups(start, end)[i]) == Some(start + i)
  {
    var g := GenerateGroups(start, end);
    assert g[i] == IntToString(i + start);
    assert IntToString(i + start) == NatDigits(start + i);
    ParseIntDigits(start + i);
  }

  lemma ParseIntDigits(n: nat)
    ensures ParseInt(NatDigits(n)) == Some(n)
  {
    LeadingDigitsOfDigits(NatDigits(n));
    DigitsValueOfNatDigits(n);
  }

  /** `generateNumbers`: the ascending inclusive range from the smaller bound to the larger. */
  function GenerateNumbers(start: int, end: int): (r: seq<int>)
  {
    var lo := if start <= end then start else end;
    var hi := if start <= end then end else start;
    seq(hi - lo + 1, i requires 0 <= i <= hi - lo => i + lo)
  }

  /** The bounds may come in either order; the range holds exactly the values
      between them, ascending. */
  lemma NumbersRange(a: int, b: int)
    ensures GenerateNumbers(a, b) == GenerateNumbers(b, a)
    ensures forall x :: x in GenerateNumbers(a, b) <==> (a <= x <= b || b <= x <= a)
    ensures forall i, j :: 0 <= i < j < |GenerateNumbers(a, b)| ==> GenerateNumbers(a, b)[i] < GenerateNumbers(a, b)[j]
  {
    var r := GenerateNumbers(a, b);
    forall x | a <= x <= b || b <= x <= a
      ensures x in r
    {
      var lo := if a <= b then a else b;
      assert r[x - lo] == x;
    }
  }

  datatype FilterType = GroupType | SeriesType | NumberType | OtherType

  /** `Array.from({ length })` clamps a negative length to 0. */
  function Count(rangeStart: int, rangeEnd: int): nat
  {
    if rangeEnd - rangeStart + 1 < 0 then 0 else rangeEnd - rangeStart + 1
  }

  /** The twenty-six one-letter strings A to Z. */
  function AllLetters(): (r: seq<string>)
    ensures |r| == 26 && forall i :: 0 <= i < 26 ==> r[i] == [(65 + i) as char]
  {
    seq(26, i requires 0 <= i < 26 => [(65 + i) as char])
  }

  /** `generateFilterData`. */
  function GenerateFilterData(kind: FilterType, rangeStart: int, rangeEnd: int, excludedChars: seq<string>): seq<string>
  {
    match kind
    case GroupType => seq(Count(rangeStart, rangeEnd), i requires 0 <= i < Count(rangeStart, rangeEnd) =>
                            PadStart(IntToString(i + rangeStart), 2, '0'))
    case SeriesType => Seqs.Filter(AllLetters(), l => l !in excludedChars)
    case NumberType => seq(Count(rangeStart, rangeEnd), i requires 0 <= i < Count(rangeStart, rangeEnd) =>
                             PadStart(IntToString(i + rangeStart), 5, '0'))
    case OtherType => []
  }

  /** Group and number entries: one per value from the start to the end,
      zero-padded to 2 and to 5 characters, each reading back as its value. */
  lemma FilterDataPadded(kind: FilterType, rangeStart: nat, rangeEnd: int, excludedChars: seq<string>, i: nat)
    requires kind == GroupType || kind == NumberType
    requires i < Count(rangeStart, rangeEnd)
    ensures |GenerateFilterData(kind, rangeStart, rangeEnd, excludedChars)| == Count(rangeStart, rangeEnd)
    ensures var e := GenerateFilterData(kind, rangeStart, rangeEnd, excludedChars)[i];
            && |e| >= (if kind == GroupType then 2 else 5)
            && ParseInt(e) == Some(rangeStart + i)
  {
    var r := GenerateFilterData(kind, rangeStart, rangeEnd, excludedChars);
    var width := if kind == GroupType then 2 else 5;
    assert r[i] == PadStart(IntToString(i + rangeStart), width, '0');
    assert IntToString(i + rangeStart) == NatDigits(rangeStart + i);
    ParseIntPadded(rangeStart + i, width);
  }

  /** Series entries: the letters A to Z, in order, without the excluded ones
      (and, unlike the market alphabet, with F, I and O). */
  lemma FilterDataSeries(rangeStart: int, rangeEnd: int, excludedChars: seq<string>)
    ensures forall s :: s in GenerateFilterData(SeriesType, rangeStart, rangeEnd, excludedChars)
                        <==> |s| == 1 && 'A' <= s[0] <= 'Z' && s !in excludedChars
  {
    var all := AllLetters();
    forall s | |s| == 1 && 'A' <= s[0] <= 'Z'
      ensures s in all
    {
      assert all[s[0] as int - 65] == s;
    }
  }

  // ---------------------------------------------------------------------
  // The hour of convertTimeToISO

  /** The hour `convertTimeToISO` computes: PM adds 12 except to 12, 12 AM
      is hour 0, anything else is kept. */
  function Hour24(hours: int, meridiem: string): int
  {
    if meridiem == "PM" && hours != 12 then hours + 12
    else if hours == 12 && meridiem == "AM" then 0
    else hours
  }

  /** On the clock face (hours 1 to 12, `AM` or `PM`) the mapping is a
      bijection onto the hours of a day: AM lands in 0..11, PM in 12..23,
      and two readings that differ land on different hours. */
  lemma Hour24OneToOne(h1: int, m1: string, h2: int, m2: string)
    requires 1 <= h1 <= 12 && (m1 == "AM" || m1 == "PM")
    requires 1 <= h2 <= 12 && (m2 == "AM" || m2 == "PM")
    ensures 0 <= Hour24(h1, m1) < 24
    ensures Hour24(h1, m1) < 12 <==> m1 == "AM"
    ensures Hour24(h1, m1) == Hour24(h2, m2) ==> h1 == h2 && m1 == m2
  {
  }

  // ---------------------------------------------------------------------
  // compareDigitsByPlace

  function Reverse<T>(s: seq<T>): (r: seq<T>)
    ensures |r| == |s| && forall i :: 0 <= i < |s| ==> r[i] == s[|s| - 1 - i]
  {
    seq(|s|, i requires 0 <= i < |s| => s[|s| - 1 - i])
  }

  /** `num.toString().padStart(5, "0")`. */
  function Padded5(n: nat): (r: string)
    ensures AllDigits(r) && |r| >= 5
  {
    PadStart(NatDigits(n), 5, '0')
  }

  /** `parseInt(digits[i], 10)`: NaN past the end of the digits. */
  function DigitAt(ds: string, i: nat): Option<nat>
    requires AllDigits(ds)
  {
    if i < |ds| then Some(DigitValue(ds[i])) else None
  }

  /** `Math.max`: NaN when either side is NaN. */
  function Max(a: Option<nat>, b: Option<nat>): (r: Option<nat>)
    ensures r.Some? <==> a.Some? && b.Some?
    ensures r.Some? ==> r.value >= a.value && r.value >= b.value && (r.value == a.value || r.value == b.value)
  {
    if a.Some? && b.Some? then Some(if a.value >= b.value then a.value else b.value) else None
  }

  /** The larger digit at each of the first `n` places of two reversed digit runs. */
  function MaxPlaces(d1: string, d2: string, n: nat): seq<Option<nat>>
    requires AllDigits(d1) && AllDigits(d2)
  {
    seq(n, i requires 0 <= i < n => Max(DigitAt(d1, i), DigitAt(d2, i)))
  }

  /** The digit-wise maximum, place by place from the right, over the places of the first number. */
  function ByPlace(num1: nat, num2: nat): seq<Option<nat>>
  {
    var d1 := Reverse(Padded5(num1));
    Reverse(MaxPlaces(d1, Reverse(Padded5(num2)), |d1|))
  }

  /** One more place appends that place's maximum. */
  lemma MaxPlacesSnoc(d1: string, d2: string, n: nat)
    requires AllDigits(d1) && AllDigits(d2)
    ensures MaxPlaces(d1, d2, n + 1) == MaxPlaces(d1, d2, n) + [Max(DigitAt(d1, n), DigitAt(d2, n))]
  {
    var f, e := MaxPlaces(d1, d2, n + 1), MaxPlaces(d1, d2, n);
    var x := Max(DigitAt(d1, n), DigitAt(d2, n));
    assert |f| == |e + [x]|;
    forall k | 0 <= k < n + 1
      ensures f[k] == (e + [x])[k]
    {
      if k < n {
        assert f[k] == e[k];
      }
    }
  }

  /** `compareDigitsByPlace`: the loop over the reversed digits of the first number. */
  method CompareDigitsByPlace(num1: nat, num2: nat) returns (result: seq<Option<nat>>)
    ensures result == ByPlace(num1, num2)
  {
    var digits1 := Reverse(Padded5(num1));
    var digits2 := Reverse(Padded5(num2));
    var acc: seq<Option<nat>> := [];
    for i := 0 to |digits1|
      invariant acc == MaxPlaces(digits1, digits2, i)
    {
      MaxPlacesSnoc(digits1, digits2, i);
      acc := acc + [Max(DigitAt(digits1, i), DigitAt(digits2, i))];
    }
    result := Reverse(acc);
  }

  lemma Padded5Length(n: nat)
    requires n < 100000
    ensures |Padded5(n)| == 5
  {
    assert Pow10(5) == 100000 by {
      assert Pow10(1) == 10;
      assert Pow10(2) == 100;
      assert Pow10(3) == 1000;
      assert Pow10(4) == 10000;
    }
    NatDigitsLength(n, 5, 100000);
  }

  /** Place `k` from the left of the result is the larger of the two digits
      in place `k` of the zero-padded inputs. */
  lemma ByPlaceAt(num1: nat, num2: nat, k: nat)
    requires |Padded5(num1)| == 5 && |Padded5(num2)| == 5 && k < 5
    ensures |ByPlace(num1, num2)| == 5
    ensures ByPlace(num1, num2)[k] == Max(Some(DigitValue(Padded5(num1)[k])), Some(DigitValue(Padded5(num2)[k])))
  {
    ReversedMaxAt(Padded5(num1), Padded5(num2), k);
  }

  /** Reversing, taking place-wise maxima and reversing back keeps places aligned. */
  lemma ReversedMaxAt(p1: string, p2: string, k: nat)
    requires AllDigits(p1) && AllDigits(p2) && |p1| == |p2| && k < |p1|
    ensures |Reverse(MaxPlaces(Reverse(p1), Reverse(p2), |p1|))| == |p1|
    ensures Reverse(MaxPlaces(Reverse(p1), Reverse(p2), |p1|))[k] == Max(Some(DigitValue(p1[k])), Some(DigitValue(p2[k])))
  {
    var d1, d2 := Reverse(p1), Reverse(p2);
    var m := MaxPlaces(d1, d2, |p1|);
    var j := |p1| - 1 - k;
    assert Reverse(m)[k] == m[j];
    assert d1[j] == p1[k] && d2[j] == p2[k];
    assert m[j] == Max(DigitAt(d1, j), DigitAt(d2, j));
  }

  /** For inputs below 100000: five digits, each the larger of the two digits
      in the same place of the zero-padded inputs. */
  lemma ByPlaceDigits(num1: nat, num2: nat)
    requires num1 < 100000 && num2 < 100000
    ensures |ByPlace(num1, num2)| == 5
    ensures forall k :: 0 <= k < 5 ==>
              ByPlace(num1, num2)[k] == Max(Some(DigitValue(Padded5(num1)[k])), Some(DigitValue(Padded5(num2)[k])))
  {
    Padded5Length(num1);
    Padded5Length(num2);
    forall k | 0 <= k < 5
      ensures ByPlace(num1, num2)[k] == Max(Some(DigitValue(Padded5(num1)[k])), Some(DigitValue(Padded5(num2)[k])))
    {
      ByPlaceAt(num1, num2, k);
    }
    ByPlaceAt(num1, num2, 0);
  }

  /** The digit-wise maximum does not depend on the order of its inputs below 100000. */
  lemma ByPlaceCommutes(num1: nat, num2: nat)
    requires num1 < 100000 && num2 < 100000
    ensures ByPlace(num1, num2) == ByPlace(num2, num1)
  {
    Padded5Length(num1);
    Padded5Length(num2);
    ReversedMaxCommutes(Padded5(num1), Padded5(num2));
  }

  lemma ReversedMaxCommutes(p1: string, p2: string)
    requires AllDigits(p1) && AllDigits(p2) && |p1| == |p2|
    ensures Reverse(MaxPlaces(Reverse(p1), Reverse(p2), |p1|)) == Reverse(MaxPlaces(Reverse(p2), Reverse(p1), |p2|))
  {
    var x, y := Reverse(MaxPlaces(Reverse(p1), Reverse(p2), |p1|)), Reverse(MaxPlaces(Reverse(p2), Reverse(p1), |p2|));
    forall k | 0 <= k < |p1|
      ensures x[k] == y[k]
    {
      ReversedMaxAt(p1, p2, k);
      ReversedMaxAt(p2, p1, k);
    }
  }

  /** The digit-wise maximum of a number with itself is its own five digits. */
  lemma ByPlaceIdempotent(num: nat)
    requires num < 100000
    ensures ByPlace(num, num) == seq(5, k requires 0 <= k < 5 => Some(DigitValue(Padded5(num)[k])))
  {
    Padded5Length(num);
    ReversedMaxSame(Padded5(num));
  }

  lemma ReversedMaxSame(p: string)
    requires AllDigits(p)
    ensures Reverse(MaxPlaces(Reverse(p), Reverse(p), |p|)) == seq(|p|, k requires 0 <= k < |p| => Some(DigitValue(p[k])))
  {
    var x := Reverse(MaxPlaces(Reverse(p), Reverse(p), |p|));
    forall k | 0 <= k < |p|
      ensures x[k] == Some(DigitValue(p[k]))
    {
      ReversedMaxAt(p, p, k);
    }
  }

  // ---------------------------------------------------------------------
  // validateAllInputs

  /** One rank of one market on the prize form; the form's fields are text. */
  datatype RankInput = RankInput(rank: string, amount: string, complementaryAmount: string, ticketNumbers: seq<string>)

  datatype MarketInput = MarketInput(marketName: string, ranks: seq<RankInput>)

  datatype AmountError = AmountRequired | AmountMatches(rank: string)

  /** A ticket's error names, for a duplicate, the rank and the place of the ticket first seen. */
  datatype TicketError = TicketRequired | TicketMatches(rank: string, index: nat)

  /** The errors of one rank: the amount, the missing complementary amount,
      and one entry per ticket place. */
  datatype RankErrors = RankErrors(rank: string, amount: Option<AmountError>, complementaryRequired: bool,
                                   tickets: seq<Option<TicketError>>)

  datatype MarketErrors = MarketErrors(marketName: string, ranks: seq<RankErrors>)

  /** A ticket together with the rank and place it was entered at. */
  datatype Slot = Slot(rank: string, index: nat, ticket: string)

  function RankSlots(r: RankInput): (s: seq<Slot>)
    ensures |s| == |r.ticketNumbers|
  {
    seq(|r.ticketNumbers|, i requires 0 <= i < |r.ticketNumbers| => Slot(r.rank, i, r.ticketNumbers[i]))
  }

  /** The tickets of a market's ranks, in the order the form is walked. */
  function Slots(ranks: seq<RankInput>): seq<Slot>
    decreases |ranks|
  {
    if ranks == [] then [] else Slots(ranks[..|ranks| - 1]) + RankSlots(ranks[|ranks| - 1])
  }

  function Tickets(slots: seq<Slot>): (r: seq<string>)
    ensures |r| == |slots| && forall i :: 0 <= i < |slots| ==> r[i] == slots[i].ticket
  {
    seq(|slots|, i requires 0 <= i < |slots| => slots[i].ticket)
  }

  function Amounts(ranks: seq<RankInput>): (r: seq<string>)
    ensures |r| == |ranks| && forall i :: 0 <= i < |ranks| ==> r[i] == ranks[i].amount
  {
    seq(|ranks|, i requires 0 <= i < |ranks| => ranks[i].amount)
  }

  /** `ticketMap` after the given slots: a non-blank ticket not yet present is recorded. */
  function TicketMap(slots: seq<Slot>): map<string, Slot>
    decreases |slots|
  {
    if slots == [] then map[]
    else
      var m := TicketMap(slots[..|slots| - 1]);
      var s := slots[|slots| - 1];
      if IsBlank(s.ticket) || s.ticket in m then m else m[s.ticket := s]
  }

  /** `amountMap` after the given ranks: a non-empty amount not yet present is recorded. */
  function AmountMap(ranks: seq<RankInput>): map<string, string>
    decreases |ranks|
  {
    if ranks == [] then map[]
    else
      var m := AmountMap(ranks[..|ranks| - 1]);
      var r := ranks[|ranks| - 1];
      if r.amount == "" || r.amount in m then m else m[r.amount := r.rank]
  }

  lemma TicketMapSnoc(slots: seq<Slot>, s: Slot)
    ensures TicketMap(slots + [s])
            == if IsBlank(s.ticket) || s.ticket in TicketMap(slots) then TicketMap(slots)
               else TicketMap(slots)[s.ticket := s]
  {
    assert (slots + [s])[..|slots|] == slots;
  }

  function TicketCheck(m: map<string, Slot>, t: string): Option<TicketError>
  {
    if IsBlank(t) then Some(TicketRequired)
    else if t in m then Some(TicketMatches(m[t].rank, m[t].index))
    else None
  }

  function AmountCheck(m: map<string, string>, a: string): Option<AmountError>
  {
    if a == "" then Some(AmountRequired)
    else if a in m then Some(AmountMatches(m[a]))
    else None
  }

  /** The checks of one rank, after the market's earlier ranks. */
  function RankCheck(earlier: seq<RankInput>, r: RankInput): RankErrors
  {
    RankErrors(r.rank, AmountCheck(AmountMap(earlier), r.amount), r.rank == "1" && r.complementaryAmount == "",
               TicketErrors(Slots(earlier), RankSlots(r)))
  }

  /** The check of each of `slots`, after `before` and the slots ahead of it. */
  function TicketErrors(before: seq<Slot>, slots: seq<Slot>): (r: seq<Option<TicketError>>)
    ensures |r| == |slots|
    decreases |slots|
  {
    if slots == [] then []
    else
      var n := |slots| - 1;
      TicketErrors(before, slots[..n]) + [TicketCheck(TicketMap(before + slots[..n]), slots[n].ticket)]
  }

  predicate HasErrors(e: RankErrors)
  {
    e.amount.Some? || e.complementaryRequired || exists i :: 0 <= i < |e.tickets| && e.tickets[i].Some?
  }

  /** The ranks of a market that have errors, with their errors. */
  function MarketCheck(ranks: seq<RankInput>): seq<RankErrors>
    decreases |ranks|
  {
    if ranks == [] then []
    else
      var e := RankCheck(ranks[..|ranks| - 1], ranks[|ranks| - 1]);
      if HasErrors(e) then MarketCheck(ranks[..|ranks| - 1]) + [e] else MarketCheck(ranks[..|ranks| - 1])
  }

  /** The markets that have errors, with their errors. */
  function Validate(prizes: seq<MarketInput>): seq<MarketErrors>
    decreases |prizes|
  {
    if prizes == [] then []
    else
      var m := prizes[|prizes| - 1];
      var es := MarketCheck(m.ranks);
      if es != [] then Validate(prizes[..|prizes| - 1]) + [MarketErrors(m.marketName, es)]
      else Validate(prizes[..|prizes| - 1])
  }

  /** One market: the ranks in turn, each with the amount check, the
      complementary check and a pass over its tickets. */
  method ValidateMarket(ranks: seq<RankInput>) returns (marketErrors: seq<RankErrors>)
    ensures marketErrors == MarketCheck(ranks)
  {
    var ticketMap: map<string, Slot> := map[];
    var amountMap: map<string, string> := map[];
    marketErrors := [];
    for n := 0 to |ranks|
      invariant ticketMap == TicketMap(Slots(ranks[..n]))
      invariant amountMap == AmountMap(ranks[..n])
      invariant marketErrors == MarketCheck(ranks[..n])
    {
      var r := ranks[n];
      assert ranks[..n + 1][..n] == ranks[..n];
      ghost var before := Slots(ranks[..n]);
      var amountError: Option<AmountError> := None;
      if r.amount == "" {
        amountError := Some(AmountRequired);
      } else if r.amount in amountMap {
        amountError := Some(AmountMatches(amountMap[r.amount]));
      } else {
        amountMap := amountMap[r.amount := r.rank];
      }
      var complementaryRequired := r.rank == "1" && r.complementaryAmount == "";
      var ticketErrors;
      ticketErrors, ticketMap := TicketPass(before, r, ticketMap);
      var e := RankErrors(r.rank, amountError, complementaryRequired, ticketErrors);
      if HasErrors(e) {
        marketErrors := marketErrors + [e];
      }
    }
    assert ranks[..|ranks|] == ranks;
  }

  /** The pass over one rank's tickets, from the ticket map of the earlier ranks. */
  method TicketPass(ghost before: seq<Slot>, r: RankInput, ticketMap0: map<string, Slot>)
    returns (ticketErrors: seq<Option<TicketError>>, ticketMap: map<string, Slot>)
    requires ticketMap0 == TicketMap(before)
    ensures ticketErrors == TicketErrors(before, RankSlots(r))
    ensures ticketMap == TicketMap(before + RankSlots(r))
  {
    ticketMap := ticketMap0;
    ticketErrors := [];
    var slots := RankSlots(r);
    assert before + slots[..0] == before;
    for i := 0 to |r.ticketNumbers|
      invariant ticketMap == TicketMap(before + slots[..i])
      invariant ticketErrors == TicketErrors(before, slots[..i])
    {
      var t := r.ticketNumbers[i];
      PassStep(before, slots, i);
      ticketErrors := ticketErrors + [TicketCheck(ticketMap, t)];
      if !IsBlank(t) && t !in ticketMap {
        ticketMap := ticketMap[t := Slot(r.rank, i, t)];
      }
    }
    assert slots[..|r.ticketNumbers|] == slots;
  }

  /** One more slot in the pass: its check is appended, and it enters the map when new and not blank. */
  lemma PassStep(before: seq<Slot>, slots: seq<Slot>, i: nat)
    requires i < |slots|
    ensures TicketErrors(before, slots[..i + 1])
            == TicketErrors(before, slots[..i]) + [TicketCheck(TicketMap(before + slots[..i]), slots[i].ticket)]
    ensures TicketMap(before + slots[..i + 1])
            == if IsBlank(slots[i].ticket) || slots[i].ticket in TicketMap(before + slots[..i])
               then TicketMap(before + slots[..i])
               else TicketMap(before + slots[..i])[slots[i].ticket := slots[i]]
  {
    assert slots[..i + 1][..i] == slots[..i];
    assert before + slots[..i + 1] == (before + slots[..i]) + [slots[i]];
    TicketMapSnoc(before + slots[..i], slots[i]);
  }

  /** `validateAllInputs`: the markets in turn, each with fresh maps. */
  method ValidateAllInputs(prizes: seq<MarketInput>) returns (errors: seq<MarketErrors>)
    ensures errors == Validate(prizes)
  {
    errors := [];
    for mi := 0 to |prizes|
      invariant errors == Validate(prizes[..mi])
    {
      assert prizes[..mi + 1][..mi] == prizes[..mi];
      var marketErrors := ValidateMarket(prizes[mi].ranks);
      if |marketErrors| > 0 {
        errors := errors + [MarketErrors(prizes[mi].marketName, marketErrors)];
      }
    }
    assert prizes[..|prizes|] == prizes;
  }


  // Properties of the checks

  /** A ticket is in the map exactly when it is non-blank and among the
      slots, and it maps to the slot where it first appears. */
  lemma {:induction false} TicketMapFirst(slots: seq<Slot>, t: string)
    ensures t in TicketMap(slots) <==> !IsBlank(t) && t in Tickets(slots)
    ensures t in TicketMap(slots) ==> TicketMap(slots)[t] == slots[Seqs.FirstIndex(Tickets(slots), t)]
    decreases |slots|
  {
    if slots != [] {
      var n := |slots| - 1;
      var p := slots[..n];
      TicketMapFirst(p, t);
      assert slots == p + [slots[n]];
      TicketMapSnoc(p, slots[n]);
      assert Tickets(slots) == Tickets(p) + [slots[n].ticket];
      if t in Tickets(p) {
        Seqs.FirstIndexOfPrefix(Tickets(p), [slots[n].ticket], t);
      } else if t == slots[n].ticket {
        assert Tickets(slots)[..n] == Tickets(p);
        Seqs.FirstIndexAt(Tickets(slots), t, n);
      }
    }
  }

  /** An amount is in the map exactly when it is non-empty and among the
      ranks, and it maps to the rank where it first appears. */
  lemma {:induction false} AmountMapFirst(ranks: seq<RankInput>, a: string)
    ensures a in AmountMap(ranks) <==> a != "" && a in Amounts(ranks)
    ensures a in AmountMap(ranks) ==> AmountMap(ranks)[a] == ranks[Seqs.FirstIndex(Amounts(ranks), a)].rank
    decreases |ranks|
  {
    if ranks != [] {
      var n := |ranks| - 1;
      var p := ranks[..n];
      AmountMapFirst(p, a);
      assert Amounts(ranks) == Amounts(p) + [ranks[n].amount];
      if a in Amounts(p) {
        Seqs.FirstIndexOfPrefix(Amounts(p), [ranks[n].amount], a);
      } else if a == ranks[n].amount {
        assert Amounts(ranks)[..n] == Amounts(p);
        Seqs.FirstIndexAt(Amounts(ranks), a, n);
      }
    }
  }

  /** Each ticket place is checked against the map of everything before it. */
  lemma {:induction false} TicketErrorsAt(before: seq<Slot>, slots: seq<Slot>, i: nat)
    requires i < |slots|
    ensures TicketErrors(before, slots)[i] == TicketCheck(TicketMap(before + slots[..i]), slots[i].ticket)
    decreases |slots|
  {
    var n := |slots| - 1;
    if i < n {
      TicketErrorsAt(before, slots[..n], i);
      assert slots[..n][..i] == slots[..i];
    }
  }

  /** The amount of a rank: required when empty, and when it repeats an
      earlier rank's amount, reported here naming the first rank that has it. */
  lemma AmountRule(earlier: seq<RankInput>, r: RankInput)
    ensures RankCheck(earlier, r).amount
            == if r.amount == "" then Some(AmountRequired)
               else if r.amount in Amounts(earlier)
               then Some(AmountMatches(earlier[Seqs.FirstIndex(Amounts(earlier), r.amount)].rank))
               else None
  {
    AmountMapFirst(earlier, r.amount);
  }

  /** A ticket place: required when blank, and when it repeats a ticket seen
      earlier in the market, reported here naming the rank and place of the
      first occurrence. */
  lemma TicketRule(earlier: seq<RankInput>, r: RankInput, i: nat)
    requires i < |r.ticketNumbers|
    ensures var seen := Slots(earlier) + RankSlots(r)[..i];
            var t := r.ticketNumbers[i];
            RankCheck(earlier, r).tickets[i]
            == if IsBlank(t) then Some(TicketRequired)
               else if t in Tickets(seen)
               then Some(TicketMatches(seen[Seqs.FirstIndex(Tickets(seen), t)].rank,
                                       seen[Seqs.FirstIndex(Tickets(seen), t)].index))
               else None
  {
    var seen := Slots(earlier) + RankSlots(r)[..i];
    TicketErrorsAt(Slots(earlier), RankSlots(r), i);
    TicketMapFirst(seen, r.ticketNumbers[i]);
  }

  /** A rank with its amount filled in, the complementary amount for rank 1,
      and no blank ticket. */
  predicate RankFilled(r: RankInput)
  {
    r.amount != "" && (r.rank == "1" ==> r.complementaryAmount != "")
    && forall i :: 0 <= i < |r.ticketNumbers| ==> !IsBlank(r.ticketNumbers[i])
  }

  /** What a market must satisfy to pass: every rank filled in, and no amount
      and no ticket used twice within the market. */
  predicate Clean(ranks: seq<RankInput>)
  {
    (forall n :: 0 <= n < |ranks| ==> RankFilled(ranks[n]))
    && Seqs.NoDuplicates(Amounts(ranks))
    && Seqs.NoDuplicates(Tickets(Slots(ranks)))
  }

  /** The last rank is filled in and brings no amount or ticket already seen. */
  predicate LastClean(earlier: seq<RankInput>, r: RankInput)
  {
    RankFilled(r) && r.amount !in Amounts(earlier)
    && forall i :: 0 <= i < |r.ticketNumbers| ==> r.ticketNumbers[i] !in Tickets(Slots(earlier)) + r.ticketNumbers[..i]
  }

  lemma CleanSnoc(earlier: seq<RankInput>, r: RankInput)
    ensures Clean(earlier + [r]) <==> Clean(earlier) && LastClean(earlier, r)
  {
    var ranks := earlier + [r];
    assert ranks[..|earlier|] == earlier;
    assert Slots(ranks) == Slots(earlier) + RankSlots(r);
    assert Amounts(ranks) == Amounts(earlier) + [r.amount];
    assert Tickets(Slots(ranks)) == Tickets(Slots(earlier)) + r.ticketNumbers;
    Seqs.NoDuplicatesSnoc(Amounts(earlier), r.amount);
    Seqs.NoDuplicatesAppend(Tickets(Slots(earlier)), r.ticketNumbers);
    assert forall n :: 0 <= n < |earlier| ==> ranks[n] == earlier[n];
    assert ranks[|earlier|] == r;
  }

  /** A rank passes its checks exactly when it is filled in and repeats nothing earlier. */
  lemma RankPasses(earlier: seq<RankInput>, r: RankInput)
    ensures !HasErrors(RankCheck(earlier, r)) <==> LastClean(earlier, r)
  {
    AmountRule(earlier, r);
    forall i | 0 <= i < |r.ticketNumbers|
      ensures RankCheck(earlier, r).tickets[i] == None
              <==> !IsBlank(r.ticketNumbers[i]) && r.ticketNumbers[i] !in Tickets(Slots(earlier)) + r.ticketNumbers[..i]
    {
      TicketRule(earlier, r, i);
      assert Tickets(Slots(earlier) + RankSlots(r)[..i]) == Tickets(Slots(earlier)) + r.ticketNumbers[..i];
    }
  }

  /** A market has no errors exactly when it is clean. */
  lemma {:induction false} MarketPasses(ranks: seq<RankInput>)
    ensures MarketCheck(ranks) == [] <==> Clean(ranks)
    decreases |ranks|
  {
    if ranks != [] {
      var n := |ranks| - 1;
      var earlier, r := ranks[..n], ranks[n];
      MarketPasses(earlier);
      RankPasses(earlier, r);
      MarketCheckLast(ranks);
      CleanLast(ranks);
    }
  }

  /** The last rank adds an entry exactly when it has errors. */
  lemma MarketCheckLast(ranks: seq<RankInput>)
    requires ranks != []
    ensures MarketCheck(ranks) == [] <==>
            MarketCheck(ranks[..|ranks| - 1]) == [] && !HasErrors(RankCheck(ranks[..|ranks| - 1], ranks[|ranks| - 1]))
  {
  }

  lemma CleanLast(ranks: seq<RankInput>)
    requires ranks != []
    ensures Clean(ranks) <==> Clean(ranks[..|ranks| - 1]) && LastClean(ranks[..|ranks| - 1], ranks[|ranks| - 1])
  {
    var n := |ranks| - 1;
    assert ranks == ranks[..n] + [ranks[n]];
    CleanSnoc(ranks[..n], ranks[n]);
  }

  /** `validateAllInputs` reports nothing exactly when every market is clean. */
  lemma {:induction false} ValidatePasses(prizes: seq<MarketInput>)
    ensures Validate(prizes) == [] <==> forall m :: 0 <= m < |prizes| ==> Clean(prizes[m].ranks)
    decreases |prizes|
  {
    if prizes != [] {
      var n := |prizes| - 1;
      ValidatePasses(prizes[..n]);
      MarketPasses(prizes[n].ranks);
      assert forall m :: 0 <= m < n ==> prizes[..n][m] == prizes[m];
    }
  }
}
