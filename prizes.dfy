/** The five prize tiers, their names as stored in the `prizeCategory` enum,
    their ticket limits, and the shape of a stored result row. */
module Prizes {
  import opened Wrappers

  datatype Category = First | Second | Third | Fourth | Fifth

  const AllCategories: seq<Category> := [First, Second, Third, Fourth, Fifth]

  function Name(c: Category): string
  {
    match c
    case First => "First Prize"
    case Second => "Second Prize"
    case Third => "Third Prize"
    case Fourth => "Fourth Prize"
    case Fifth => "Fifth Prize"
  }

  /** Position in the enum's declaration order, which is also the order
      `ORDER BY prizeCategory` sorts by. */
  function Rank(c: Category): (k: nat)
    ensures k < 5 && AllCategories[k] == c
  {
    match c
    case First => 0
    case Second => 1
    case Third => 2
    case Fourth => 3
    case Fifth => 4
  }

  /** The key lookup `prizeLimits[prizeCategory]`: a category for the five
      names, nothing for any other string. */
  function ParseCategory(s: string): (r: Option<Category>)
    ensures r.Some? ==> Name(r.value) == s
    ensures r.None? ==> forall c: Category :: Name(c) != s
  {
    if s == "First Prize" then Some(First)
    else if s == "Second Prize" then Some(Second)
    else if s == "Third Prize" then Some(Third)
    else if s == "Fourth Prize" then Some(Fourth)
    else if s == "Fifth Prize" then Some(Fifth)
    else None
  }

  /** The number of tickets a tier must be declared with, and the cap on its
      stored rows per market. */
  function Limit(c: Category): (n: nat)
    ensures n >= 1
  {
    match c
    case First => 1
    case Second => 10
    case Third => 10
    case Fourth => 10
    case Fifth => 50
  }

  lemma ParseName(c: Category)
    ensures ParseCategory(Name(c)) == Some(c)
  {
  }

  /** A row of `LotteryResult`. Only First Prize rows carry a complementary
      prize. */
  datatype ResultRow = ResultRow(
    ticketNumbers: seq<string>,
    category: Category,
    prizeAmount: int,
    complementaryPrize: Option<int>,
    marketName: string,
    marketId: string,
    createdDay: int)
}
