// The shared records of the raffle front-end: prizes, tickets, winners,
// announcements, statistics and the operator configuration.

module Types {

  datatype Option<+T> = None | Some(value: T) {
    function GetOr(default: T): T {
      match this
      case Some(v) => v
      case None => default
    }
  }

  /** The three prize categories a ticket can target. */
  datatype PrizeType = Mobile | Bike | Fan

  /** The string value each enum member carries ('Mobile', 'Bike', 'Fan'). */
  function PrizeName(p: PrizeType): string {
    match p
    case Mobile => "Mobile"
    case Bike => "Bike"
    case Fan => "Fan"
  }

  /** `Object.values(PrizeType).includes(s)`, returning the member found. */
  function ParsePrize(s: string): (r: Option<PrizeType>)
    ensures r.Some? ==> PrizeName(r.value) == s
    ensures r.None? ==> forall p: PrizeType :: PrizeName(p) != s
  {
    if s == "Mobile" then Some(Mobile)
    else if s == "Bike" then Some(Bike)
    else if s == "Fan" then Some(Fan)
    else None
  }

  const AllPrizes: seq<PrizeType> := [Mobile, Bike, Fan]

  /** Every prize category is listed, exactly once, by `AllPrizes`. */
  lemma PrizeTypeHasThreeValues(p: PrizeType)
    ensures multiset(AllPrizes)[p] == 1
    ensures |AllPrizes| == 3
  {
    match p
    case Mobile =>
    case Bike =>
    case Fan =>
  }

  /** The prize names are pairwise distinct and parse back to their member. */
  lemma PrizeNameRoundTrip(p: PrizeType, q: PrizeType)
    ensures ParsePrize(PrizeName(p)) == Some(p)
    ensures PrizeName(p) == PrizeName(q) ==> p == q
  {
  }

  datatype Status = Pending | Approved | Rejected

  datatype DeviceType = MobileDevice | Desktop

  /** The text each device class is written as ('mobile', 'desktop'). */
  function DeviceName(d: DeviceType): string {
    match d
    case MobileDevice => "mobile"
    case Desktop => "desktop"
  }

  /** One submitted raffle entry. Optional booleans that the source only
      tests for truthiness are plain `bool`, with "absent" as `false`. */
  datatype Ticket = Ticket(
    id: string,
    ticketNumber: string,
    name: string,
    mobile: string,
    prize: PrizeType,
    proofUrl: string,
    status: Status,
    timestamp: int,
    processedBy: Option<string>,
    processedAt: Option<int>,
    isReferralFree: bool,
    referralCode: Option<string>,
    referredBy: Option<string>,
    isWinner: bool,
    deviceType: DeviceType)

  /** A promotion record: it names its ticket by id and copies the ticket's
      name, prize and ticket number instead of holding the ticket. */
  datatype Winner = Winner(
    id: string,
    ticketId: string,
    name: string,
    prize: PrizeType,
    ticketNumber: string,
    timestamp: int,
    celebrationPhoto: Option<string>)

  datatype Announcement = Announcement(text: string, timestamp: int, isBreaking: bool)

  /** One counter per prize category, the total, and the two device counters. */
  datatype PrizeStats = PrizeStats(
    mobile: nat,
    bike: nat,
    fan: nat,
    total: nat,
    mobileDeviceCount: nat,
    desktopDeviceCount: nat)

  /** The counter `stats[p]` of one prize category. */
  function PrizeCount(s: PrizeStats, p: PrizeType): nat {
    match p
    case Mobile => s.mobile
    case Bike => s.bike
    case Fan => s.fan
  }

  /** A display image for each prize category; as a record there is an
      entry for every category by construction. */
  datatype PrizeImages = PrizeImages(mobile: string, bike: string, fan: string)

  function ImageFor(images: PrizeImages, p: PrizeType): string {
    match p
    case Mobile => images.mobile
    case Bike => images.bike
    case Fan => images.fan
  }

  datatype AppConfig = AppConfig(
    jazzCash: string,
    jazzCashName: string,
    easyPaisa: string,
    easyPaisaName: string,
    bankAccount: string,
    bankAccountName: string,
    ticketPrice: int,
    adminEmail: string,
    adminName: string,
    adminKey: string,
    referralRequirement: int,
    managementLink: string,
    prizeImages: PrizeImages)
}
