// The main page's logic: entry-form validation, construction of a new
// ticket, the statistics and referral count recomputed on every refresh,
// the news-ticker items, the admin credential check and the toast list.

module App {
  import opened Types
  import opened Strings
  import opened Collections
  import opened MockStore

  // ---------------------------------------------------------------- form

  /** What the user typed and chose. `receiptType` is the MIME type of the
      chosen receipt file, `None` when no file is chosen; `prize` is the raw
      value of the prize selection. */
  datatype EntryForm = EntryForm(
    name: string,
    mobile: string,
    prize: string,
    receiptType: Option<string>,
    referredBy: string)

  /** The four validation failures, in the order they are checked. */
  datatype FormError = NameTooShort | BadMobile | BadPrize | MissingReceipt

  /** The warning toast each failure shows. */
  function WarningText(e: FormError): string {
    match e
    case NameTooShort => "Invalid Name: Use at least 3 characters."
    case BadMobile => "Invalid Mobile: Use Pakistan format (03XXXXXXXXX)."
    case BadPrize => "Invalid Selection: Please choose a valid prize."
    case MissingReceipt => "Receipt Required: Please upload payment proof."
  }

  /** `/^03[0-9]{9}$/`: "03" followed by exactly nine ASCII digits. */
  predicate IsMobileNumber(s: string) {
    |s| == 11 && s[0] == '0' && s[1] == '3' && forall i :: 2 <= i < 11 ==> IsDigit(s[i])
  }

  /** The name check: at least 3 UTF-16 code units once trimmed. */
  predicate NameOk(name: string) {
    Utf16Length(Trim(name)) >= 3
  }

  /** `validateForm`: `None` when every check passes, otherwise the first
      failing check, checked in the order name, mobile, prize, receipt. */
  function ValidateForm(form: EntryForm): (r: Option<FormError>)
    ensures r.None? <==>
              NameOk(form.name) && IsMobileNumber(Trim(form.mobile))
              && ParsePrize(form.prize).Some? && form.receiptType.Some?
    ensures r == Some(NameTooShort) <==> !NameOk(form.name)
    ensures r == Some(BadMobile) <==> NameOk(form.name) && !IsMobileNumber(Trim(form.mobile))
    ensures r == Some(BadPrize) <==>
              NameOk(form.name) && IsMobileNumber(Trim(form.mobile)) && ParsePrize(form.prize).None?
    ensures r == Some(MissingReceipt) <==>
              NameOk(form.name) && IsMobileNumber(Trim(form.mobile))
              && ParsePrize(form.prize).Some? && form.receiptType.None?
  {
    var cleanName := Trim(form.name);
    var cleanMobile := Trim(form.mobile);
    if cleanName == [] || Utf16Length(cleanName) < 3 then Some(NameTooShort)
    else if !IsMobileNumber(cleanMobile) then Some(BadMobile)
    else if ParsePrize(form.prize).None? then Some(BadPrize)
    else if form.receiptType.None? then Some(MissingReceipt)
    else None
  }

  /** A number the form accepts keeps its shape; numbers of other lengths or
      prefixes are refused. */
  lemma MobileFormatExamples()
    ensures IsMobileNumber("03001234567")
    ensures !IsMobileNumber("0300123456") && !IsMobileNumber("030012345678")
    ensures !IsMobileNumber("04001234567") && !IsMobileNumber("0300123456a")
  {
    assert "0300123456a"[10] == 'a';
  }

  // ---------------------------------------------------------- new ticket

  /** `VIP-${Math.floor(10000 + Math.random() * 90000)}`, where `draw` is the
      integer part of `Math.random() * 90000`. */
  function TicketNumber(draw: nat): (r: string)
    requires draw < 90000
    ensures |r| == 9 && r[..4] == "VIP-"
    ensures forall i :: 4 <= i < 9 ==> IsDigit(r[i])
    ensures r[4] != '0'
    ensures DigitsValue(r[4..]) == 10000 + draw
  {
    var digits := Decimal(10000 + draw);
    DecimalLength(10000 + draw, 4);
    DecimalRoundTrip(10000 + draw);
    assert ("VIP-" + digits)[4..] == digits;
    "VIP-" + digits
  }

  /** `userReferralCode || finalMobile.slice(-4)`. */
  function ReferralCodeFor(userReferralCode: Option<string>, mobile: string): (r: string)
    ensures userReferralCode.Some? && userReferralCode.value != "" ==> r == userReferralCode.value
    ensures userReferralCode.None? || userReferralCode.value == "" ==> r == LastN(mobile, 4)
  {
    if userReferralCode.Some? && userReferralCode.value != "" then userReferralCode.value
    else LastN(mobile, 4)
  }

  /** The ticket `handleBuyTicket` builds from an accepted form. `base64` is
      the encoded receipt, `id` and `draw` stand for the random values,
      `device` for the user-agent test and `now` for the clock. */
  function NewTicket(form: EntryForm, prize: PrizeType, base64: string, userReferralCode: Option<string>,
                     id: string, draw: nat, device: DeviceType, now: int): (t: Ticket)
    requires form.receiptType.Some?
    requires draw < 90000
    ensures t.status == Pending && t.timestamp == now && t.id == id && t.prize == prize
    ensures t.name == Trim(form.name) && t.mobile == Trim(form.mobile)
    ensures t.ticketNumber == TicketNumber(draw)
    ensures t.referralCode == Some(ReferralCodeFor(userReferralCode, Trim(form.mobile)))
    ensures t.referredBy == if Trim(form.referredBy) == "" then None else Some(Trim(form.referredBy))
    ensures t.proofUrl == "data:" + form.receiptType.value + ";base64," + base64
    ensures t.processedBy.None? && t.processedAt.None? && !t.isWinner && !t.isReferralFree
    ensures t.deviceType == device
  {
    var finalName := Trim(form.name);
    var finalMobile := Trim(form.mobile);
    var referred := Trim(form.referredBy);
    Ticket(
      id := id,
      ticketNumber := TicketNumber(draw),
      name := finalName,
      mobile := finalMobile,
      prize := prize,
      proofUrl := "data:" + form.receiptType.value + ";base64," + base64,
      status := Pending,
      timestamp := now,
      processedBy := None,
      processedAt := None,
      isReferralFree := false,
      referralCode := Some(ReferralCodeFor(userReferralCode, finalMobile)),
      referredBy := if referred == "" then None else Some(referred),
      isWinner := false,
      deviceType := device)
  }

  /** Without a code of their own, an accepted entrant's referral code is the
      last four digits of their mobile number. */
  lemma FallbackReferralCodeIsFourDigits(form: EntryForm, prize: PrizeType, base64: string,
                                         id: string, draw: nat, device: DeviceType, now: int)
    requires ValidateForm(form).None?
    requires draw < 90000
    ensures var t := NewTicket(form, prize, base64, None, id, draw, device, now);
            t.referralCode.Some? && |t.referralCode.value| == 4
            && t.referralCode.value == t.mobile[7..]
            && forall i :: 0 <= i < 4 ==> IsDigit(t.referralCode.value[i])
  {
    var m := Trim(form.mobile);
    assert LastN(m, 4) == m[7..];
    forall i | 0 <= i < 4 ensures IsDigit(m[7..][i]) {
      assert m[7..][i] == m[7 + i];
    }
  }

  /** A form whose name and mobile carry no white space at their ends is
      taken as typed: it is accepted exactly when the untrimmed fields pass
      the checks, and the ticket keeps the name and number unchanged. */
  lemma CleanEntry(form: EntryForm, userReferralCode: Option<string>, base64: string,
                   id: string, draw: nat, device: DeviceType, now: int)
    requires form.name != [] && !IsWhiteSpace(form.name[0]) && !IsWhiteSpace(form.name[|form.name| - 1])
    requires form.mobile != [] && !IsWhiteSpace(form.mobile[0]) && !IsWhiteSpace(form.mobile[|form.mobile| - 1])
    requires forall i :: 0 <= i < |form.name| ==> form.name[i] as int <= 0xFFFF
    requires draw < 90000 && form.receiptType.Some?
    ensures ValidateForm(form).None? <==>
              |form.name| >= 3 && IsMobileNumber(form.mobile) && ParsePrize(form.prize).Some?
    ensures var t := NewTicket(form, Mobile, base64, userReferralCode, id, draw, device, now);
            t.name == form.name && t.mobile == form.mobile
            && (userReferralCode.None? ==> t.referralCode == Some(LastN(form.mobile, 4)))
  {
    TrimNoOp(form.name);
    TrimNoOp(form.mobile);
    Utf16LengthBmp(form.name);
  }

  /** The entry of "Ali Khan", mobile 03001234567, prize Mobile, with a
      receipt, passes every check. */
  lemma AliKhanAccepted(form: EntryForm)
    requires form == EntryForm("Ali Khan", "03001234567", "Mobile", Some("image/png"), "")
    ensures ValidateForm(form).None?
  {
    assert form.name[0] == 'A' && form.name[7] == 'n';
    assert form.mobile[0] == '0' && form.mobile[10] == '7';
    CleanEntry(form, None, "", "", 0, Desktop, 0);
    MobileFormatExamples();
  }

  /** What a submission ends in. */
  datatype SubmitOutcome = Refused(error: FormError) | TransmissionFailed | Secured(ticket: Ticket)

  /** `handleBuyTicket`: a refused form or a failed receipt encoding
      (`encoded == None`) saves nothing; otherwise the new ticket is
      appended to the store (renamed with `suffix` if its id is taken).
      The receipt check runs but its verdict does not gate the save. */
  method HandleBuyTicket(store: Store, form: EntryForm, userReferralCode: Option<string>,
                         encoded: Option<string>, id: string, draw: nat, suffix: string,
                         device: DeviceType, now: int)
    returns (outcome: SubmitOutcome)
    requires store.Valid()
    requires draw < 90000
    modifies store
    ensures store.Valid()
    ensures ValidateForm(form).Some? ==> outcome == Refused(ValidateForm(form).value)
    ensures ValidateForm(form).None? && encoded.None? ==> outcome == TransmissionFailed
    ensures !outcome.Secured? ==> store.tickets == old(store.tickets)
    ensures ValidateForm(form).None? && encoded.Some? ==>
              && outcome.Secured?
              && outcome.ticket == NewTicket(form, ParsePrize(form.prize).value, encoded.value,
                                             userReferralCode, id, draw, device, now)
                                     .(id := StoredId(old(store.tickets), id, suffix))
              && store.tickets == old(store.tickets) + [outcome.ticket]
    ensures store.winners == old(store.winners) && store.config == old(store.config)
    ensures store.announcement == old(store.announcement) && store.archive == old(store.archive)
  {
    var check := ValidateForm(form);
    if check.Some? {
      return Refused(check.value);
    }
    if encoded.None? {
      return TransmissionFailed;
    }
    var prize := ParsePrize(form.prize).value;
    var ticket := NewTicket(form, prize, encoded.value, userReferralCode, id, draw, device, now);
    var stored := store.SaveTicket(ticket, suffix);
    outcome := Secured(stored);
  }

  /** The toast a submission ends with: the warning of the failed check, the
      transmission warning, or the success message. */
  function SubmitToast(outcome: SubmitOutcome): (r: (string, ToastKind))
    ensures r.1 == Success <==> outcome.Secured?
    ensures outcome.Refused? ==> r == (WarningText(outcome.error), Warning)
  {
    match outcome
    case Refused(e) => (WarningText(e), Warning)
    case TransmissionFailed => ("Transmission failed. Please check your connection.", Warning)
    case Secured(_) => ("Ticket Secured! Awaiting Verification.", Success)
  }

  /** The four warnings are pairwise distinct, so the toast tells the user
      which check failed. */
  lemma WarningNamesTheCheck(e: FormError, e': FormError)
    ensures WarningText(e) == WarningText(e') ==> e == e'
  {
    assert |WarningText(NameTooShort)| == 40 && |WarningText(BadMobile)| == 50;
    assert |WarningText(BadPrize)| == 47 && |WarningText(MissingReceipt)| == 46;
  }

  // ---------------------------------------------------------- statistics

  function CountPrize(ts: seq<Ticket>, p: PrizeType): nat {
    |Filter((t: Ticket) => t.prize == p, ts)|
  }

  function CountDevice(ts: seq<Ticket>, d: DeviceType): nat {
    |Filter((t: Ticket) => t.deviceType == d, ts)|
  }

  /** The counters `refreshData` fills in one pass over the tickets: one per
      prize, one per device class, and the total. The prize counters and the
      device counters each add up to the total. */
  method ComputeStats(ts: seq<Ticket>) returns (s: PrizeStats)
    ensures s.total == |ts|
    ensures forall p: PrizeType :: PrizeCount(s, p) == CountPrize(ts, p)
    ensures s.mobileDeviceCount == CountDevice(ts, MobileDevice)
    ensures s.desktopDeviceCount == CountDevice(ts, Desktop)
    ensures s.mobile + s.bike + s.fan == s.total
    ensures s.mobileDeviceCount + s.desktopDeviceCount == s.total
  {
    s := PrizeStats(0, 0, 0, |ts|, 0, 0);
    var n := 0;
    while n < |ts|
      invariant 0 <= n <= |ts|
      invariant s.total == |ts|
      invariant s.mobile == CountPrize(ts[..n], Mobile)
      invariant s.bike == CountPrize(ts[..n], Bike)
      invariant s.fan == CountPrize(ts[..n], Fan)
      invariant s.mobileDeviceCount == CountDevice(ts[..n], MobileDevice)
      invariant s.desktopDeviceCount == CountDevice(ts[..n], Desktop)
      invariant s.mobile + s.bike + s.fan == n
      invariant s.mobileDeviceCount + s.desktopDeviceCount == n
    {
      var t := ts[n];
      StatsStep(ts[..n], t);
      assert ts[..n + 1] == ts[..n] + [t];
      match t.prize {
        case Mobile => s := s.(mobile := s.mobile + 1);
        case Bike => s := s.(bike := s.bike + 1);
        case Fan => s := s.(fan := s.fan + 1);
      }
      if t.deviceType == MobileDevice {
        s := s.(mobileDeviceCount := s.mobileDeviceCount + 1);
      } else {
        s := s.(desktopDeviceCount := s.desktopDeviceCount + 1);
      }
      n := n + 1;
    }
    assert ts[..n] == ts;
  }

  /** How one more ticket changes each count. */
  lemma StatsStep(ts: seq<Ticket>, t: Ticket)
    ensures CountPrize(ts + [t], Mobile) == CountPrize(ts, Mobile) + if t.prize == Mobile then 1 else 0
    ensures CountPrize(ts + [t], Bike) == CountPrize(ts, Bike) + if t.prize == Bike then 1 else 0
    ensures CountPrize(ts + [t], Fan) == CountPrize(ts, Fan) + if t.prize == Fan then 1 else 0
    ensures CountDevice(ts + [t], MobileDevice) == CountDevice(ts, MobileDevice) + if t.deviceType == MobileDevice then 1 else 0
    ensures CountDevice(ts + [t], Desktop) == CountDevice(ts, Desktop) + if t.deviceType == Desktop then 1 else 0
  {
    FilterSnoc((u: Ticket) => u.prize == Mobile, ts, t);
    FilterSnoc((u: Ticket) => u.prize == Bike, ts, t);
    FilterSnoc((u: Ticket) => u.prize == Fan, ts, t);
    FilterSnoc((u: Ticket) => u.deviceType == MobileDevice, ts, t);
    FilterSnoc((u: Ticket) => u.deviceType == Desktop, ts, t);
  }

  // ------------------------------------------------------------ referrals

  /** A ticket that counts towards `code`: referred with it and approved. */
  predicate CountsForReferral(t: Ticket, code: string) {
    t.referredBy == Some(code) && t.status == Approved
  }

  /** The verified-referral count `refreshData` computes; `None` when the
      user has no code, in which case the count is not recomputed. */
  function VerifiedReferralCount(ts: seq<Ticket>, userReferralCode: Option<string>): (r: Option<nat>)
    ensures r.None? <==> userReferralCode.None? || userReferralCode.value == ""
    ensures r.Some? ==> r.value <= |ts|
  {
    if userReferralCode.None? || userReferralCode.value == "" then None
    else Some(|Filter((t: Ticket) => CountsForReferral(t, userReferralCode.value), ts)|)
  }

  /** How one decision moves the count for `code`. The decided ticket stops
      counting with its old status and counts afresh with the new one, so
      approving a pending referred ticket adds one, rejecting it adds nothing,
      and re-rejecting an approved referred ticket takes one away. */
  lemma ReferralCountAfterReview(ts: seq<Ticket>, id: string, status: Status, admin: string, now: int, code: string)
    requires code != ""
    requires IdTaken(ts, id)
    ensures var t := ts[IndexOfId(ts, id)];
            var before := VerifiedReferralCount(ts, Some(code)).value;
            var after := VerifiedReferralCount(SetStatus(ts, id, status, admin, now), Some(code)).value;
            after + (if CountsForReferral(t, code) then 1 else 0)
            == before + (if status == Approved && t.referredBy == Some(code) then 1 else 0)
  {
    var i := IndexOfId(ts, id);
    var ts' := SetStatus(ts, id, status, admin, now);
    assert ts' == ts[i := Processed(ts[i], status, admin, now)];
    FilterLengthUpdate((t: Ticket) => CountsForReferral(t, code), ts, i, Processed(ts[i], status, admin, now));
  }

  /** On a pending ticket, approving a referred one raises the count by one and
      any other decision leaves it. */
  lemma ReferralCountAfterFirstReview(ts: seq<Ticket>, id: string, status: Status, admin: string, now: int, code: string)
    requires code != ""
    requires IdTaken(ts, id)
    requires ts[IndexOfId(ts, id)].status == Pending
    ensures var before := VerifiedReferralCount(ts, Some(code)).value;
            var after := VerifiedReferralCount(SetStatus(ts, id, status, admin, now), Some(code)).value;
            after == before + if status == Approved && ts[IndexOfId(ts, id)].referredBy == Some(code) then 1 else 0
  {
    ReferralCountAfterReview(ts, id, status, admin, now, code);
  }

  // ---------------------------------------------------------- news ticker

  /** The label of `MOST POPULAR`: Mobile wins only when it strictly leads
      Bike; the Fan count takes no part in it. */
  function MostPopular(stats: PrizeStats): (r: string)
    ensures r == "Fun Mobile" <==> stats.mobile > stats.bike
    ensures r != "Fun Mobile" ==> r == "Motorbike"
  {
    if stats.mobile > stats.bike then "Fun Mobile" else "Motorbike"
  }

  /** One RECENT item: the entrant's first word and device class. */
  function RecentItem(t: Ticket): string {
    "RECENT: " + FirstWord(t.name) + " joined via " + DeviceName(t.deviceType)
  }

  /** The ticker `refreshData` builds: four fixed items, then one RECENT item
      for each of the (at most five) most recent tickets, oldest first.
      `formatCount` stands for the locale's `toLocaleString`. */
  method NewsItems(announce: Announcement, ts: seq<Ticket>, winnerCount: nat, stats: PrizeStats,
                   formatCount: nat -> string)
    returns (items: seq<string>)
    ensures var m := if |ts| < 5 then |ts| else 5;
            |items| == 4 + m
            && forall k :: 4 <= k < |items| ==> items[k] == RecentItem(ts[|ts| - m + (k - 4)])
    ensures items[0] == "[BREAKING] " + announce.text
    ensures items[1] == "TOTAL PARTICIPANTS: " + formatCount(|ts|)
    ensures items[2] == "WINNERS THIS SESSION: " + Decimal(winnerCount)
    ensures items[3] == "MOST POPULAR: " + MostPopular(stats)
  {
    items := [
      "[BREAKING] " + announce.text,
      "TOTAL PARTICIPANTS: " + formatCount(|ts|),
      "WINNERS THIS SESSION: " + Decimal(winnerCount),
      "MOST POPULAR: " + MostPopular(stats)
    ];
    var recent := if |ts| < 5 then ts else ts[|ts| - 5..];
    var k := 0;
    while k < |recent|
      invariant 0 <= k <= |recent|
      invariant |items| == 4 + k
      invariant items[0] == "[BREAKING] " + announce.text
      invariant items[1] == "TOTAL PARTICIPANTS: " + formatCount(|ts|)
      invariant items[2] == "WINNERS THIS SESSION: " + Decimal(winnerCount)
      invariant items[3] == "MOST POPULAR: " + MostPopular(stats)
      invariant forall j :: 4 <= j < |items| ==> items[j] == RecentItem(recent[j - 4])
    {
      items := items + [RecentItem(recent[k])];
      k := k + 1;
    }
  }

  // --------------------------------------------------------------- login

  /** `handleAdminLogin`: both the email and the key must equal the
      configured ones exactly. */
  function AdminLogin(email: string, key: string, config: AppConfig): (ok: bool)
    ensures ok ==> email == config.adminEmail && key == config.adminKey
    ensures email == config.adminEmail && key == config.adminKey ==> ok
  {
    email == config.adminEmail && key == config.adminKey
  }

  /** With no configuration saved, only the default credential pair logs in. */
  lemma DefaultCredentials(email: string, key: string)
    ensures AdminLogin("Shazib@Aura.com", "Shazibpassword7756", DefaultConfig)
    ensures key != "Shazibpassword7756" ==> !AdminLogin(email, key, DefaultConfig)
  {
  }

  // -------------------------------------------------------------- toasts

  datatype ToastKind = Info | Success | Warning

  datatype Toast = Toast(id: string, message: string, kind: ToastKind, timestamp: int)

  /** `addToast`: appends a toast with a fresh random `id` at time `now`. */
  function AddToast(toasts: seq<Toast>, id: string, message: string, kind: ToastKind, now: int): (r: seq<Toast>)
    ensures |r| == |toasts| + 1 && r[..|toasts|] == toasts
    ensures r[|toasts|] == Toast(id, message, kind, now)
  {
    toasts + [Toast(id, message, kind, now)]
  }

  /** `removeToast`: drops every toast with `id`, keeping the others in order. */
  function RemoveToast(toasts: seq<Toast>, id: string): (r: seq<Toast>)
    ensures forall i :: 0 <= i < |r| ==> r[i].id != id && r[i] in toasts
    ensures forall i :: 0 <= i < |toasts| && toasts[i].id != id ==> toasts[i] in r
  {
    Filter((t: Toast) => t.id != id, toasts)
  }

  /** Removing a toast right after adding it restores the list without it,
      and removing twice is the same as removing once. */
  lemma RemoveUndoesAdd(toasts: seq<Toast>, id: string, message: string, kind: ToastKind, now: int)
    ensures RemoveToast(AddToast(toasts, id, message, kind, now), id) == RemoveToast(toasts, id)
    ensures RemoveToast(RemoveToast(toasts, id), id) == RemoveToast(toasts, id)
  {
    FilterConcat((t: Toast) => t.id != id, toasts, [Toast(id, message, kind, now)]);
    FilterAll((t: Toast) => t.id != id, RemoveToast(toasts, id));
  }
}
