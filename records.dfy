/** Record shapes of the tables the lottery controllers read and write. A
    query becomes a function over a sequence of rows; a date-time column
    becomes an integer instant and a calendar day an integer day number. */
module Records {

  /** A row of `TicketRange`: one lottery market with its ranges of groups,
      series letters and numbers. */
  datatype TicketRange = TicketRange(
    marketId: string,
    marketName: string,
    groupStart: int,
    groupEnd: int,
    seriesStart: char,
    seriesEnd: char,
    numberStart: string,
    numberEnd: string,
    startTime: int,
    endTime: int,
    price: int,
    isActive: bool,
    isWin: bool,
    isVoid: bool,
    winReference: bool,
    createdDay: int)

  /** A row of `PurchaseLottery`: a purchase seeded by group, series, number and sem. */
  datatype Purchase = Purchase(
    purchaseId: string,
    generateId: string,
    userId: string,
    userName: string,
    group: int,
    series: char,
    number: string,
    sem: int,
    marketName: string,
    marketId: string,
    lotteryPrice: int,
    price: int,
    resultAnnouncement: bool,
    hidePurchase: bool,
    createdDay: int)
}
