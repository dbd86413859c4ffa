/** Vendor compliance (services/compliance-service/app/routes/compliance.py): the verification of
    licence and tax numbers, and a stored status that registration and checks keep up to date
    while another function recomputes it. */
module Compliance {

  import opened Prelude
  import GstChecksum

  // ---------------------------------------------------------------------------
  // Strings as the routes treat them
  // ---------------------------------------------------------------------------

  predicate IsSpace(c: char)
    ensures c in {' ', '\t', '\n', '\r'} ==> IsSpace(c)
    ensures IsDigit(c) || IsCapital(c) || 'a' <= c <= 'z' ==> !IsSpace(c)
  {
    var n := c as int;
    9 <= n <= 13 || 28 <= n <= 32 || n == 0x85 || n == 0xA0 || n == 0x1680 || 0x2000 <= n <= 0x200A
    || n == 0x2028 || n == 0x2029 || n == 0x202F || n == 0x205F || n == 0x3000
  }

  function StripLeft(s: string): string {
    if s != "" && IsSpace(s[0]) then StripLeft(s[1..]) else s
  }

  function StripRight(s: string): string {
    if s != "" && IsSpace(s[|s| - 1]) then StripRight(s[..|s| - 1]) else s
  }

  function Strip(s: string): string { StripRight(StripLeft(s)) }

  // The capital of a character. Characters beyond ASCII keep a capital beyond ASCII, save the few
  // below, so that for the pattern it is enough to leave the others as they are.
  function Capital(c: char): string {
    var n := c as int;
    if 'a' <= c <= 'z' then [(c - 'a') + 'A']
    else if n == 0xDF then "SS"
    else if n == 0x131 then "I"
    else if n == 0x17F then "S"
    else if n == 0xFB00 then "FF"
    else if n == 0xFB01 then "FI"
    else if n == 0xFB02 then "FL"
    else if n == 0xFB03 then "FFI"
    else if n == 0xFB04 then "FFL"
    else if n == 0xFB05 || n == 0xFB06 then "ST"
    else [c]
  }

  function Upper(s: string): string {
    if s == "" then "" else Capital(s[0]) + Upper(s[1..])
  }

  predicate IsDigit(c: char) { '0' <= c <= '9' }

  predicate IsCapital(c: char) { 'A' <= c <= 'Z' }

  predicate AllDigits(s: string) { forall i | 0 <= i < |s| :: IsDigit(s[i]) }

  predicate AllCapitals(s: string) { forall i | 0 <= i < |s| :: IsCapital(s[i]) }

  function Number(s: string): nat
    requires AllDigits(s)
  {
    if s == "" then 0
    else 10 * Number(s[..|s| - 1]) + (s[|s| - 1] - '0') as nat
  }

  // ---------------------------------------------------------------------------
  // The two verifications
  // ---------------------------------------------------------------------------

  datatype FssaiVerdict =
    | FssaiBadFormat
    | FssaiBadState(code: nat)
    | FssaiBadYear(year: nat)
    | FssaiValid(state: nat, year: nat, typeCode: string)

  // An unknown type code is let through.
  function VerifyFssaiLicense(licenseNo: string, currentYear: int): FssaiVerdict {
    var no := Strip(licenseNo);
    if |no| != 14 || !AllDigits(no) then FssaiBadFormat
    else
      var code := Number(no[..2]);
      if code < 1 || code > 37 then FssaiBadState(code)
      else
        var year := Number(no[8..12]);
        if year < 2006 || year > currentYear then FssaiBadYear(year)
        else FssaiValid(code, year, no[12..14])
  }

  predicate GstinPattern(s: string) {
    && |s| == 15
    && AllDigits(s[..2]) && AllCapitals(s[2..7]) && AllDigits(s[7..11]) && IsCapital(s[11])
    && ('1' <= s[12] <= '9' || IsCapital(s[12]))
    && s[13] == 'Z'
    && (IsDigit(s[14]) || IsCapital(s[14]))
  }

  datatype GstVerdict =
    | GstBadFormat
    | GstBadState(code: nat)
    | GstBadCheckDigit
    | GstValid(state: nat, pan: string, entity: char, checkDigit: char)

  function VerifyGstNumber(gstNo: string): GstVerdict {
    var no := Upper(Strip(gstNo));
    if !GstinPattern(no) then GstBadFormat
    else
      var code := Number(no[..2]);
      if code < 1 || code > 37 then GstBadState(code)
      else if !GstChecksum.Accepts(no) then GstBadCheckDigit
      else GstValid(code, no[2..12], no[12], no[14])
  }

  // A number written with so many digits.
  function Digits(n: nat, width: nat): (s: string)
    ensures |s| == width && AllDigits(s)
    decreases width
  {
    if width == 0 then "" else Digits(n / 10, width - 1) + ['0' + (n % 10) as char]
  }

  function PowerOfTen(n: nat): nat { if n == 0 then 1 else 10 * PowerOfTen(n - 1) }

  lemma {:induction false} NumberOfDigits(n: nat, width: nat)
    requires n < PowerOfTen(width)
    ensures Number(Digits(n, width)) == n
    decreases width
  {
    if width > 0 {
      NumberOfDigits(n / 10, width - 1);
      var s := Digits(n, width);
      assert s[..|s| - 1] == Digits(n / 10, width - 1);
    }
  }

  ghost predicate AllSpaces(s: string) { forall i | 0 <= i < |s| :: IsSpace(s[i]) }

  lemma {:induction false} StripLeftOfPadded(pad: string, s: string)
    requires AllSpaces(pad) && s != "" && !IsSpace(s[0])
    ensures StripLeft(pad + s) == s
  {
    if pad == "" {
      assert pad + s == s;
    } else {
      StripLeftOfPadded(pad[1..], s);
      assert (pad + s)[1..] == pad[1..] + s;
    }
  }

  lemma {:induction false} StripRightOfPadded(s: string, pad: string)
    requires AllSpaces(pad) && s != "" && !IsSpace(s[|s| - 1])
    ensures StripRight(s + pad) == s
  {
    if pad == "" {
      assert s + pad == s;
    } else {
      StripRightOfPadded(s, pad[..|pad| - 1]);
      assert (s + pad)[..|s + pad| - 1] == s + pad[..|pad| - 1];
    }
  }

  lemma StripOfPadded(left: string, s: string, right: string)
    requires AllSpaces(left) && AllSpaces(right)
    requires s != "" && !IsSpace(s[0]) && !IsSpace(s[|s| - 1])
    ensures Strip(left + s + right) == s
  {
    assert left + s + right == left + (s + right);
    StripLeftOfPadded(left, s + right);
    StripRightOfPadded(s, right);
  }

  function FssaiNumber(state: nat, serial: nat, year: nat, kind: nat): (no: string)
    ensures |no| == 14 && AllDigits(no)
  {
    Digits(state, 2) + Digits(serial, 6) + Digits(year, 4) + Digits(kind, 2)
  }

  lemma {:induction false} FssaiParts(state: nat, serial: nat, year: nat, kind: nat)
    requires state < 100 && year < 10000
    ensures var no := FssaiNumber(state, serial, year, kind);
            Number(no[..2]) == state && Number(no[8..12]) == year && no[12..14] == Digits(kind, 2)
  {
    var no := FssaiNumber(state, serial, year, kind);
    assert no[..2] == Digits(state, 2);
    assert no[8..12] == Digits(year, 4);
    assert no[12..14] == Digits(kind, 2);
    assert PowerOfTen(2) == 100 && PowerOfTen(4) == 10000;
    NumberOfDigits(state, 2);
    NumberOfDigits(year, 4);
  }

  /** A licence number put together from its parts, with any white space around it, is read back
      into them, or refused for the first part that is out of range. */
  lemma {:induction false} FssaiRoundTrip(
    left: string, state: nat, serial: nat, year: nat, kind: nat, right: string, currentYear: int)
    requires AllSpaces(left) && AllSpaces(right)
    requires state < 100 && year < 10000
    ensures VerifyFssaiLicense(left + FssaiNumber(state, serial, year, kind) + right, currentYear)
            == if !(1 <= state <= 37) then FssaiBadState(state)
               else if !(2006 <= year <= currentYear) then FssaiBadYear(year)
               else FssaiValid(state, year, Digits(kind, 2))
  {
    var no := FssaiNumber(state, serial, year, kind);
    assert IsDigit(no[0]) && IsDigit(no[13]);
    StripOfPadded(left, no, right);
    FssaiParts(state, serial, year, kind);
  }

  /** A licence that is valid in one year is valid, with the same reading, in every later one. */
  lemma FssaiStaysValid(licenseNo: string, year: int, later: int)
    requires year <= later && VerifyFssaiLicense(licenseNo, year).FssaiValid?
    ensures VerifyFssaiLicense(licenseNo, later) == VerifyFssaiLicense(licenseNo, year)
  {
  }

  lemma {:induction false} UpperOfCapitals(s: string)
    requires GstChecksum.Alphanumeric(s)
    ensures Upper(s) == s
  {
    if s != "" {
      assert GstChecksum.InAlphabet(s[0]);
      assert forall i | 0 <= i < |s[1..]| :: s[1..][i] == s[i + 1];
      UpperOfCapitals(s[1..]);
    }
  }

  lemma PatternIsAlphanumeric(s: string)
    requires GstinPattern(s)
    ensures GstChecksum.Alphanumeric(s)
  {
    forall i | 0 <= i < |s| ensures GstChecksum.InAlphabet(s[i]) {
      assert i < 2 ==> s[i] == s[..2][i];
      assert 2 <= i < 7 ==> s[i] == s[2..7][i - 2];
      assert 7 <= i < 11 ==> s[i] == s[7..11][i - 7];
    }
  }

  lemma AlphanumericHasNoSpaces(s: string)
    requires GstChecksum.Alphanumeric(s) && s != ""
    ensures !IsSpace(s[0]) && !IsSpace(s[|s| - 1])
  {
  }

  // Capitals and digits pass the clean-up unchanged.
  lemma CleanedAlphanumeric(left: string, s: string, right: string)
    requires AllSpaces(left) && AllSpaces(right) && GstChecksum.Alphanumeric(s) && s != ""
    ensures Upper(Strip(left + s + right)) == s
  {
    AlphanumericHasNoSpaces(s);
    StripOfPadded(left, s, right);
    UpperOfCapitals(s);
  }

  lemma VerifyCleaned(s: string)
    requires GstChecksum.Alphanumeric(s) && s != ""
    ensures Upper(Strip(s)) == s
  {
    CleanedAlphanumeric("", s, "");
    assert "" + s + "" == s;
  }

  // A PAN: five capitals, four digits and a capital.
  predicate IsPan(pan: string) {
    |pan| == 10 && AllCapitals(pan[..5]) && AllDigits(pan[5..9]) && IsCapital(pan[9])
  }

  function GstPrefix(state: nat, pan: string, entity: char): (s: string)
    requires |pan| == 10
    ensures |s| == 14
  {
    Digits(state, 2) + pan + [entity, 'Z']
  }

  lemma GstPrefixFits(state: nat, pan: string, entity: char, check: char)
    requires state < 100 && IsPan(pan)
    requires ('1' <= entity <= '9' || IsCapital(entity)) && (IsDigit(check) || IsCapital(check))
    ensures var s := GstPrefix(state, pan, entity) + [check];
            && GstinPattern(s) && Number(s[..2]) == state
            && s[2..12] == pan && s[12] == entity && s[14] == check
  {
    var s := GstPrefix(state, pan, entity) + [check];
    assert s[..2] == Digits(state, 2) && s[2..12] == pan;
    assert s[2..7] == pan[..5] && s[7..11] == pan[5..9] && s[11] == pan[9];
    assert PowerOfTen(2) == 100;
    NumberOfDigits(state, 2);
  }

  // The same text but for the case of its letters.
  predicate SameButCase(w: string, s: string) {
    |w| == |s| && forall i | 0 <= i < |s| :: w[i] == s[i] || (IsCapital(s[i]) && w[i] == (s[i] - 'A') + 'a')
  }

  lemma {:induction false} UpperIgnoresCase(w: string, s: string)
    requires SameButCase(w, s) && GstChecksum.Alphanumeric(s)
    ensures Upper(w) == s
  {
    if s != "" {
      assert GstChecksum.InAlphabet(s[0]);
      assert forall i | 0 <= i < |s[1..]| :: s[1..][i] == s[i + 1];
      UpperIgnoresCase(w[1..], s[1..]);
      assert Capital(w[0]) == [s[0]];
    }
  }

  /** A tax number put together from its parts, in any case and with any white space around it, is read
      back into them with its one check character, and refused for a bad state or any other check
      character. */
  lemma GstRoundTrip(
    left: string, w: string, right: string, state: nat, pan: string, entity: char, check: char)
    requires AllSpaces(left) && AllSpaces(right)
    requires state < 100 && IsPan(pan)
    requires ('1' <= entity <= '9' || IsCapital(entity)) && (IsDigit(check) || IsCapital(check))
    requires SameButCase(w, GstPrefix(state, pan, entity) + [check])
    ensures VerifyGstNumber(left + w + right) ==
            if !(1 <= state <= 37) then GstBadState(state)
            else if check != GstChecksum.Letter(GstChecksum.CheckValue(GstPrefix(state, pan, entity)))
            then GstBadCheckDigit
            else GstValid(state, pan, entity, check)
  {
    var s := GstPrefix(state, pan, entity) + [check];
    GstPrefixFits(state, pan, entity, check);
    PatternIsAlphanumeric(s);
    assert GstChecksum.InAlphabet(s[0]) && GstChecksum.InAlphabet(s[14]);
    StripOfPadded(left, w, right);
    UpperIgnoresCase(w, s);
    GstChecksum.ExactlyOneCheckCharacter(GstPrefix(state, pan, entity), check);
  }

  /** The whole verification catches every mistyped character: a valid number, all in capitals,
      with one of its characters replaced by another digit or capital, is invalid. */
  lemma MistypedGstinIsInvalid(s: string, i: nat, c: char)
    requires GstinPattern(s) && VerifyGstNumber(s).GstValid?
    requires i < 15 && GstChecksum.InAlphabet(c) && c != s[i]
    ensures !VerifyGstNumber(s[i := c]).GstValid?
  {
    PatternIsAlphanumeric(s);
    VerifyCleaned(s);
    VerifyCleaned(s[i := c]);
    GstChecksum.SingleChangeIsRejected(s, i, c);
  }

  /** It catches every swap of two different neighbours as well: the one pair the checksum misses,
      '0' with 'Z', cannot be swapped inside the pattern, nor can the fixed 'Z' with its right
      neighbour. */
  lemma SwappedGstinIsInvalid(s: string, i: nat)
    requires GstinPattern(s) && VerifyGstNumber(s).GstValid?
    requires i < 14 && s[i] != s[i + 1]
    ensures !VerifyGstNumber(GstChecksum.Swapped(s, i)).GstValid?
  {
    PatternIsAlphanumeric(s);
    VerifyCleaned(s);
    VerifyCleaned(GstChecksum.Swapped(s, i));
    if i < 13 {
      GstChecksum.NeighbourSwapAcceptedIff(s, i);
      if GstChecksum.ZeroAndZ(s[i], s[i + 1]) {
        SwapLeavesThePattern(s, i);
      }
    }
  }

  lemma SwapLeavesThePattern(s: string, i: nat)
    requires GstinPattern(s) && i < 13
    requires GstChecksum.ZeroAndZ(s[i], s[i + 1])
    ensures !GstinPattern(GstChecksum.Swapped(s, i))
  {
    var t := GstChecksum.Swapped(s, i);
    assert i < 2 ==> s[i] == s[..2][i];
    assert 2 <= i < 7 ==> s[i] == s[2..7][i - 2] && t[i] == t[2..7][i - 2];
    assert i < 2 ==> t[i] == t[..2][i];
    assert 7 <= i < 11 ==> s[i] == s[7..11][i - 7] && t[i] == t[7..11][i - 7];
    assert 1 <= i < 6 ==> s[i + 1] == s[2..7][i - 1];
    assert 6 <= i < 10 ==> s[i + 1] == s[7..11][i - 6];
  }

  // ---------------------------------------------------------------------------
  // The vendor record and its recomputed status
  // ---------------------------------------------------------------------------

  datatype Status = PENDING | PASSED | FAILED

  datatype Onboarding = IN_REVIEW | APPROVED | REJECTED

  datatype CheckType = FSSAI | GST | DPDP | RBI | OtherCheck(name: string)

  // A number on file, if any, and whether it is marked verified.
  datatype Filed = Filed(number: Option<string>, verified: bool)

  datatype DataProtection = DataProtection(consent: bool, policy: bool, retentionDays: Option<int>, verified: bool)

  datatype Payments = Payments(aggregator: bool, escrow: bool, refund: bool, verified: bool)

  // The columns of the vendor's record that belong together are grouped.
  datatype Vendor = Vendor(
    fssai: Filed, gst: Filed, dpdp: DataProtection, rbi: Payments, overall: Status, onboarding: Onboarding)

  // The record a check creates for a vendor it does not know.
  function AutoCreated(): Vendor {
    Vendor(Filed(None, false), Filed(None, false), DataProtection(false, false, None, false),
           Payments(false, false, false, false), PENDING, IN_REVIEW)
  }

  // An empty string is no number.
  predicate OnFile(number: Option<string>) { number.Some? && number.value != "" }

  predicate LicenseHolds(number: Option<string>, year: int) {
    OnFile(number) && VerifyFssaiLicense(number.value, year).FssaiValid?
  }

  predicate GstHolds(number: Option<string>) {
    OnFile(number) && VerifyGstNumber(number.value).GstValid?
  }

  datatype Report = Report(overall: Status, fssai: Status, gst: Status, dpdp: Status, rbi: Status)

  // The status of a number on file, given whether it holds.
  function FiledStatus(f: Filed, holds: bool): Status {
    if !OnFile(f.number) then PENDING
    else if !holds then FAILED
    else if f.verified then PASSED
    else PENDING
  }

  function DpdpStatus(d: DataProtection): Status {
    if d.verified then (if d.consent && d.policy then PASSED else FAILED)
    else if d.consent && !d.policy then FAILED
    else if !d.consent && d.policy then FAILED
    else PENDING
  }

  function RbiStatus(p: Payments): Status {
    if p.verified then (if p.aggregator && p.escrow && p.refund then PASSED else FAILED)
    else if p.aggregator && !p.escrow then FAILED
    else if p.aggregator && !p.refund then FAILED
    else PENDING
  }

  function Combined(a: Status, b: Status, c: Status, d: Status): Status {
    if FAILED in {a, b, c, d} then FAILED else if PENDING in {a, b, c, d} then PENDING else PASSED
  }

  // check_compliance_status
  function CheckComplianceStatus(record: Option<Vendor>, year: int): Report {
    match record
    case None => Report(PENDING, PENDING, PENDING, PENDING, PENDING)
    case Some(v) =>
      var fssai := FiledStatus(v.fssai, LicenseHolds(v.fssai.number, year));
      var gst := FiledStatus(v.gst, GstHolds(v.gst.number));
      var dpdp, rbi := DpdpStatus(v.dpdp), RbiStatus(v.rbi);
      Report(Combined(fssai, gst, dpdp, rbi), fssai, gst, dpdp, rbi)
  }

  // check_vendor_compliance, which the status route answers with: it trusts the number on file
  // rather than the flag for the first two, and the flag first for the others.
  function CheckVendorCompliance(record: Option<Vendor>, year: int): Status {
    match record
    case None => PENDING
    case Some(v) =>
      if || (OnFile(v.fssai.number) && !LicenseHolds(v.fssai.number, year))
         || (OnFile(v.gst.number) && !GstHolds(v.gst.number))
         || (!v.dpdp.verified && !(v.dpdp.consent && v.dpdp.policy))
         || (!v.rbi.verified && !(v.rbi.aggregator && v.rbi.escrow && v.rbi.refund))
      then FAILED
      else if !OnFile(v.fssai.number) || !OnFile(v.gst.number) || !v.dpdp.verified || !v.rbi.verified then PENDING
      else PASSED
  }

  // ---------------------------------------------------------------------------
  // What registration and checks store
  // ---------------------------------------------------------------------------

  datatype Form = Form(
    fssaiLicense: Option<string>, gstNumber: Option<string>,
    consent: bool, policy: bool, retentionDays: Option<int>,
    aggregator: bool, escrow: bool, refund: bool)

  predicate AllVerified(v: Vendor) {
    v.fssai.verified && v.gst.verified && v.dpdp.verified && v.rbi.verified
  }

  // A number the form leaves out stays as it was, with its flag; a new one is marked by whether it
  // holds now.
  function Refiled(f: Filed, number: Option<string>, holds: bool): Filed {
    if number.Some? then Filed(number, holds) else f
  }

  function Registered(v: Vendor, form: Form, year: int): Vendor {
    var w := v.(fssai := Refiled(v.fssai, form.fssaiLicense, LicenseHolds(form.fssaiLicense, year)),
                gst := Refiled(v.gst, form.gstNumber, GstHolds(form.gstNumber)),
                dpdp := DataProtection(form.consent, form.policy, form.retentionDays, form.consent && form.policy),
                rbi := Payments(form.aggregator, form.escrow, form.refund,
                                form.aggregator && form.escrow && form.refund));
    if AllVerified(w) then w.(overall := PASSED, onboarding := APPROVED)
    else w.(overall := PENDING, onboarding := IN_REVIEW)
  }

  function DpdpCheck(d: DataProtection): Status {
    if d.verified then PASSED else if !d.consent || !d.policy then FAILED else PENDING
  }

  function RbiCheck(p: Payments): Status {
    if p.verified then PASSED else if !p.aggregator || !p.escrow || !p.refund then FAILED else PENDING
  }

  // The four _check_* functions, for a vendor.
  function CheckStatus(record: Option<Vendor>, kind: CheckType, year: int): Status {
    match record
    case None => PENDING
    case Some(v) =>
      match kind
      case FSSAI => CheckComplianceStatus(record, year).fssai
      case GST => CheckComplianceStatus(record, year).gst
      case DPDP => DpdpCheck(v.dpdp)
      case RBI => RbiCheck(v.rbi)
      case OtherCheck(_) => PENDING
  }

  predicate SomethingUnverified(v: Vendor) {
    || (OnFile(v.fssai.number) && !v.fssai.verified)
    || (OnFile(v.gst.number) && !v.gst.verified)
    || (v.dpdp.consent && !v.dpdp.verified)
    || (v.rbi.aggregator && !v.rbi.verified)
  }

  function WithStatus(v: Vendor): Vendor {
    if AllVerified(v) then v.(overall := PASSED, onboarding := APPROVED)
    else if SomethingUnverified(v) then v.(overall := FAILED, onboarding := REJECTED)
    else v.(overall := PENDING, onboarding := IN_REVIEW)
  }

  function Flag(flag: bool, status: Status): bool {
    match status
    case PASSED => true
    case FAILED => false
    case PENDING => flag
  }

  function Flagged(v: Vendor, kind: CheckType, status: Status): Vendor {
    match kind
    case FSSAI => v.(fssai := v.fssai.(verified := Flag(v.fssai.verified, status)))
    case GST => v.(gst := v.gst.(verified := Flag(v.gst.verified, status)))
    case DPDP => v.(dpdp := v.dpdp.(verified := Flag(v.dpdp.verified, status)))
    case RBI => v.(rbi := v.rbi.(verified := Flag(v.rbi.verified, status)))
    case OtherCheck(_) => v
  }

  datatype Key = Key(tenant: string, vendor: string)

  type Registry = map<Key, Vendor>

  function Find(rows: Registry, key: Key): Option<Vendor> {
    if key in rows then Some(rows[key]) else None
  }

  function Row(rows: Registry, key: Key): Vendor {
    if key in rows then rows[key] else AutoCreated()
  }

  function AfterRegister(rows: Registry, key: Key, form: Form, year: int): Registry {
    rows[key := Registered(Row(rows, key), form, year)]
  }

  function AfterCheck(rows: Registry, key: Key, kind: CheckType, year: int): Registry {
    if kind.OtherCheck? then rows
    else rows[key := WithStatus(Flagged(Row(rows, key), kind, CheckStatus(Find(rows, key), kind, year)))]
  }

  // ---------------------------------------------------------------------------
  // The routes
  // ---------------------------------------------------------------------------

  class ComplianceService {
    var rows: Registry

    constructor ()
      ensures rows == map[]
    {
      rows := map[];
    }

    // Updating a record and creating one store the same: AfterRegister does not tell them apart.
    method RegisterVendorCompliance(key: Key, form: Form, year: int) returns (created: bool, overall: Status)
      modifies this`rows
      ensures rows == AfterRegister(old(rows), key, form, year)
      ensures created == (key !in old(rows)) && overall == rows[key].overall
    {
      created := key !in rows;
      var record;
      if !created {
        record := UpdatedRecord(rows[key], form, year);
      } else {
        record := NewRecord(form, year);
      }
      rows := rows[key := record];
      overall := record.overall;
    }

    method UpdatedRecord(v: Vendor, form: Form, year: int) returns (existing: Vendor)
      ensures existing == Registered(v, form, year)
    {
      existing := v;
      if form.fssaiLicense.Some? {
        existing := existing.(fssai := existing.fssai.(number := form.fssaiLicense));
        var valid := FssaiIsValid(form.fssaiLicense.value, year);
        existing := existing.(fssai := existing.fssai.(verified := valid));
      }
      assert existing == v.(fssai := Refiled(v.fssai, form.fssaiLicense, LicenseHolds(form.fssaiLicense, year)));
      if form.gstNumber.Some? {
        existing := existing.(gst := existing.gst.(number := form.gstNumber));
        var valid := GstIsValid(form.gstNumber.value);
        existing := existing.(gst := existing.gst.(verified := valid));
      }
      assert existing.gst == Refiled(v.gst, form.gstNumber, GstHolds(form.gstNumber));
      var dpdpOk := form.consent && form.policy;
      existing := existing.(dpdp := DataProtection(form.consent, form.policy, form.retentionDays, dpdpOk));
      var rbiOk := form.aggregator && form.escrow && form.refund;
      existing := existing.(rbi := Payments(form.aggregator, form.escrow, form.refund, rbiOk));
      var allOk := existing.fssai.verified && existing.gst.verified && dpdpOk && rbiOk;
      existing := existing.(overall := if allOk then PASSED else PENDING);
      existing := existing.(onboarding := if allOk then APPROVED else IN_REVIEW);
    }

    method NewRecord(form: Form, year: int) returns (record: Vendor)
      ensures record == Registered(AutoCreated(), form, year)
    {
      var fssaiVerified, gstVerified := false, false;
      if OnFile(form.fssaiLicense) {
        fssaiVerified := FssaiIsValid(form.fssaiLicense.value, year);
      }
      assert fssaiVerified == LicenseHolds(form.fssaiLicense, year);
      if OnFile(form.gstNumber) {
        gstVerified := GstIsValid(form.gstNumber.value);
      }
      assert gstVerified == GstHolds(form.gstNumber);
      var dpdpOk := form.consent && form.policy;
      var rbiOk := form.aggregator && form.escrow && form.refund;
      var allOk := fssaiVerified && gstVerified && dpdpOk && rbiOk;
      record := Vendor(
        Filed(form.fssaiLicense, fssaiVerified), Filed(form.gstNumber, gstVerified),
        DataProtection(form.consent, form.policy, form.retentionDays, dpdpOk),
        Payments(form.aggregator, form.escrow, form.refund, rbiOk),
        if allOk then PASSED else PENDING, if allOk then APPROVED else IN_REVIEW);
    }

    // run_compliance_check for a vendor; an unknown kind of check is refused.
    method RunComplianceCheck(key: Key, kind: CheckType, year: int) returns (answer: Option<Status>)
      modifies this`rows
      ensures rows == AfterCheck(old(rows), key, kind, year)
      ensures answer == if kind.OtherCheck? then None else Some(CheckStatus(Find(old(rows), key), kind, year))
    {
      if kind.OtherCheck? {
        return None;
      }
      var status := PENDING;
      match kind {
        case FSSAI => status := CheckFssaiCompliance(key, year);
        case GST => status := CheckGstCompliance(key, year);
        case DPDP => status := CheckDpdpCompliance(key);
        case RBI => status := CheckRbiCompliance(key);
      }
      UpdateVendorCompliance(key, kind, status);
      answer := Some(status);
    }

    method CheckFssaiCompliance(key: Key, year: int) returns (status: Status)
      ensures status == CheckStatus(Find(rows, key), FSSAI, year)
    {
      if key !in rows || !OnFile(rows[key].fssai.number) {
        return PENDING;
      }
      var valid := FssaiIsValid(rows[key].fssai.number.value, year);
      if !valid {
        return FAILED;
      }
      var vendorStatus := CheckComplianceStatus(Find(rows, key), year);
      if vendorStatus.fssai == FAILED {
        return FAILED;
      }
      if vendorStatus.fssai == PENDING {
        return PENDING;
      }
      status := PASSED;
    }

    method CheckGstCompliance(key: Key, year: int) returns (status: Status)
      ensures status == CheckStatus(Find(rows, key), GST, year)
    {
      if key !in rows || !OnFile(rows[key].gst.number) {
        return PENDING;
      }
      var valid := GstIsValid(rows[key].gst.number.value);
      if !valid {
        return FAILED;
      }
      var vendorStatus := CheckComplianceStatus(Find(rows, key), year);
      if vendorStatus.gst == FAILED {
        return FAILED;
      }
      if vendorStatus.gst == PENDING {
        return PENDING;
      }
      status := PASSED;
    }

    method CheckDpdpCompliance(key: Key) returns (status: Status)
      ensures status == if key in rows then DpdpCheck(rows[key].dpdp) else PENDING
    {
      if key !in rows {
        return PENDING;
      }
      var d := rows[key].dpdp;
      var failed: seq<string> := [];
      if !d.consent {
        failed := failed + ["consent_mechanism_exists"];
      }
      if !d.policy {
        failed := failed + ["privacy_policy_published"];
      }
      status := if d.verified then PASSED else if failed != [] then FAILED else PENDING;
    }

    method CheckRbiCompliance(key: Key) returns (status: Status)
      ensures status == if key in rows then RbiCheck(rows[key].rbi) else PENDING
    {
      if key !in rows {
        return PENDING;
      }
      var p := rows[key].rbi;
      var failed: seq<string> := [];
      if !p.aggregator {
        failed := failed + ["payment_aggregator_registration"];
      }
      if !p.escrow {
        failed := failed + ["escrow_account_maintenance"];
      }
      if !p.refund {
        failed := failed + ["refund_timeline_compliance"];
      }
      status := if p.verified then PASSED else if failed != [] then FAILED else PENDING;
    }

    method UpdateVendorCompliance(key: Key, kind: CheckType, status: Status)
      modifies this`rows
      ensures rows == old(rows)[key := WithStatus(Flagged(Row(old(rows), key), kind, status))]
    {
      var vendor := if key in rows then rows[key] else AutoCreated();
      if kind == FSSAI && status == PASSED {
        vendor := vendor.(fssai := vendor.fssai.(verified := true));
      } else if kind == FSSAI && status == FAILED {
        vendor := vendor.(fssai := vendor.fssai.(verified := false));
      }
      if kind == GST && status == PASSED {
        vendor := vendor.(gst := vendor.gst.(verified := true));
      } else if kind == GST && status == FAILED {
        vendor := vendor.(gst := vendor.gst.(verified := false));
      }
      if kind == DPDP && status == PASSED {
        vendor := vendor.(dpdp := vendor.dpdp.(verified := true));
      } else if kind == DPDP && status == FAILED {
        vendor := vendor.(dpdp := vendor.dpdp.(verified := false));
      }
      if kind == RBI && status == PASSED {
        vendor := vendor.(rbi := vendor.rbi.(verified := true));
      } else if kind == RBI && status == FAILED {
        vendor := vendor.(rbi := vendor.rbi.(verified := false));
      }
      assert vendor == Flagged(Row(rows, key), kind, status);
      var allPassed := AllVerified(vendor);
      var anyFailed := SomethingUnverified(vendor);
      if allPassed {
        vendor := vendor.(overall := PASSED);
        vendor := vendor.(onboarding := APPROVED);
      } else if anyFailed {
        vendor := vendor.(overall := FAILED);
        vendor := vendor.(onboarding := REJECTED);
      } else {
        vendor := vendor.(overall := PENDING);
        vendor := vendor.(onboarding := IN_REVIEW);
      }
      rows := rows[key := vendor];
    }

    // verification["valid"]: no number is valid that is the empty string.
    method FssaiIsValid(number: string, year: int) returns (valid: bool)
      ensures valid <==> LicenseHolds(Some(number), year)
    {
      valid := VerifyFssaiLicense(number, year).FssaiValid?;
      assert number == "" ==> Strip(number) == "";
    }

    method GstIsValid(number: string) returns (valid: bool)
      ensures valid <==> GstHolds(Some(number))
    {
      valid := VerifyGstNumber(number).GstValid?;
      assert number == "" ==> Upper(Strip(number)) == "";
    }
  }

  // ---------------------------------------------------------------------------
  // Runs
  // ---------------------------------------------------------------------------

  datatype Step =
    | Register(key: Key, form: Form, year: int)
    | Check(key: Key, kind: CheckType, year: int)

  function Next(rows: Registry, step: Step): Registry {
    match step
    case Register(key, form, year) => AfterRegister(rows, key, form, year)
    case Check(key, kind, year) => AfterCheck(rows, key, kind, year)
  }

  function Run(rows: Registry, steps: seq<Step>): Registry
    decreases steps
  {
    if steps == [] then rows else Run(Next(rows, steps[0]), steps[1..])
  }

  // Years never go back, from `first` on.
  ghost predicate InOrder(steps: seq<Step>, first: int) {
    steps != [] ==> first <= steps[0].year && InOrder(steps[1..], steps[0].year)
  }

  function LastYear(steps: seq<Step>, first: int): int {
    if steps == [] then first else LastYear(steps[1..], steps[0].year)
  }

  // Each flag says no more than the facts. A licence may hold without being marked: it is
  // registered before the year it carries.
  ghost predicate SoundFssai(f: Filed, year: int) { f.verified ==> LicenseHolds(f.number, year) }

  ghost predicate SoundGst(f: Filed) { f.verified <==> GstHolds(f.number) }

  ghost predicate SoundDpdp(d: DataProtection) { d.verified <==> d.consent && d.policy }

  ghost predicate SoundRbi(p: Payments) { p.verified <==> p.aggregator && p.escrow && p.refund }

  ghost predicate SoundFlags(v: Vendor, year: int) {
    SoundFssai(v.fssai, year) && SoundGst(v.gst) && SoundDpdp(v.dpdp) && SoundRbi(v.rbi)
  }

  ghost predicate Sound(v: Vendor, year: int) {
    && SoundFlags(v, year)
    && (v.overall == PASSED <==> AllVerified(v))
    && (v.onboarding == APPROVED <==> v.overall == PASSED)
    && (v.onboarding == REJECTED <==> v.overall == FAILED)
  }

  ghost predicate AllSound(rows: Registry, year: int) {
    forall key | key in rows :: Sound(rows[key], year)
  }

  lemma AllSoundLater(rows: Registry, year: int, later: int)
    requires AllSound(rows, year) && year <= later
    ensures AllSound(rows, later)
  {
  }

  lemma RegisteredIsSound(v: Vendor, form: Form, year: int)
    requires SoundFlags(v, year)
    ensures Sound(Registered(v, form, year), year)
  {
  }

  // On a sound record a check answers with the flag, so it has nothing to change.
  lemma CheckFlipsNothing(v: Vendor, kind: CheckType, year: int)
    requires SoundFlags(v, year)
    ensures Flagged(v, kind, CheckStatus(Some(v), kind, year)) == v
  {
  }

  lemma WithStatusIsSound(v: Vendor, year: int)
    requires SoundFlags(v, year)
    ensures Sound(WithStatus(v), year)
  {
  }

  lemma AutoCreatedIsSound(year: int)
    ensures Sound(AutoCreated(), year)
  {
  }

  // What one check leaves under its own key.
  lemma CheckedRow(rows: Registry, key: Key, kind: CheckType, year: int)
    requires AllSound(rows, year) && !kind.OtherCheck?
    ensures AfterCheck(rows, key, kind, year) == rows[key := WithStatus(Row(rows, key))]
    ensures Sound(WithStatus(Row(rows, key)), year)
  {
    AutoCreatedIsSound(year);
    CheckFlipsNothing(Row(rows, key), kind, year);
    WithStatusIsSound(Row(rows, key), year);
  }

  lemma NextKeepsSound(rows: Registry, step: Step)
    requires AllSound(rows, step.year)
    ensures AllSound(Next(rows, step), step.year)
  {
    match step
    case Register(key, form, year) =>
      AutoCreatedIsSound(year);
      RegisteredIsSound(Row(rows, key), form, year);
    case Check(key, kind, year) =>
      if !kind.OtherCheck? { CheckedRow(rows, key, kind, year); }
  }

  /** Soundness is kept by every run in which the years do not go back. */
  lemma {:induction false} RunKeepsSound(rows: Registry, steps: seq<Step>, year: int)
    requires AllSound(rows, year) && InOrder(steps, year)
    ensures AllSound(Run(rows, steps), LastYear(steps, year)) && year <= LastYear(steps, year)
    decreases |steps|
  {
    if steps != [] {
      AllSoundLater(rows, year, steps[0].year);
      NextKeepsSound(rows, steps[0]);
      RunKeepsSound(Next(rows, steps[0]), steps[1..], steps[0].year);
    }
  }

  lemma SoundPassesTogether(v: Vendor, year: int)
    requires Sound(v, year)
    ensures v.overall == PASSED <==> CheckComplianceStatus(Some(v), year).overall == PASSED
  {
  }

  /** Over any run of registrations and checks, and read in the last year or any later one, the
      stored status of every vendor is PASSED exactly when the recomputation says PASSED. */
  lemma StoredAgreesWithRecomputation(steps: seq<Step>, first: int, key: Key, year: int)
    requires InOrder(steps, first) && LastYear(steps, first) <= year
    ensures var rows := Run(map[], steps);
            (key in rows && rows[key].overall == PASSED) <==>
            CheckComplianceStatus(Find(rows, key), year).overall == PASSED
  {
    var rows := Run(map[], steps);
    RunKeepsSound(map[], steps, first);
    AllSoundLater(rows, LastYear(steps, first), year);
    if key in rows {
      SoundPassesTogether(rows[key], year);
    }
  }

  // All but the verdict.
  function Facts(v: Vendor): Vendor { v.(overall := PENDING, onboarding := IN_REVIEW) }

  /** Checks alone, however many, never flip a verified flag nor touch what is on file. */
  lemma {:induction false} ChecksFlipNothing(rows: Registry, steps: seq<Step>, year: int, key: Key)
    requires AllSound(rows, year) && InOrder(steps, year)
    requires forall i | 0 <= i < |steps| :: steps[i].Check?
    ensures Facts(Row(Run(rows, steps), key)) == Facts(Row(rows, key))
    decreases |steps|
  {
    if steps != [] {
      var step := steps[0];
      AllSoundLater(rows, year, step.year);
      NextKeepsSound(rows, step);
      if !step.kind.OtherCheck? { CheckedRow(rows, step.key, step.kind, step.year); }
      ChecksFlipNothing(Next(rows, step), steps[1..], step.year, key);
    }
  }

  // ---------------------------------------------------------------------------
  // What the requests filed
  // ---------------------------------------------------------------------------

  // The last licence given for a vendor, with the year of that request.
  function LastLicense(steps: seq<Step>, key: Key): Option<(string, int)> {
    if steps == [] then None
    else
      var later := LastLicense(steps[1..], key);
      if later.Some? then later
      else if steps[0].Register? && steps[0].key == key && steps[0].form.fssaiLicense.Some?
      then Some((steps[0].form.fssaiLicense.value, steps[0].year)) else None
  }

  function LastGst(steps: seq<Step>, key: Key): Option<string> {
    if steps == [] then None
    else
      var later := LastGst(steps[1..], key);
      if later.Some? then later
      else if steps[0].Register? && steps[0].key == key then steps[0].form.gstNumber else None
  }

  function LastForm(steps: seq<Step>, key: Key): Option<Form> {
    if steps == [] then None
    else
      var later := LastForm(steps[1..], key);
      if later.Some? then later
      else if steps[0].Register? && steps[0].key == key then Some(steps[0].form) else None
  }

  // What a run leaves on file: the numbers last given, each marked by whether it was valid when it was
  // given, and everything else as on the last form.
  ghost predicate AsGiven(v: Vendor, steps: seq<Step>, key: Key, v': Vendor) {
    && v'.fssai == (match LastLicense(steps, key)
                    case None => v.fssai
                    case Some((no, year)) => Filed(Some(no), no != "" && VerifyFssaiLicense(no, year).FssaiValid?))
    && v'.gst == (match LastGst(steps, key)
                  case None => v.gst
                  case Some(no) => Filed(Some(no), no != "" && VerifyGstNumber(no).GstValid?))
    && match LastForm(steps, key)
       case None => v'.dpdp == v.dpdp && v'.rbi == v.rbi
       case Some(f) =>
         && v'.dpdp == DataProtection(f.consent, f.policy, f.retentionDays, f.consent && f.policy)
         && v'.rbi == Payments(f.aggregator, f.escrow, f.refund, f.aggregator && f.escrow && f.refund)
  }

  lemma RegisteredAsGiven(v: Vendor, steps: seq<Step>, key: Key, v': Vendor)
    requires steps != [] && steps[0].Register? && steps[0].key == key
    requires AsGiven(Registered(v, steps[0].form, steps[0].year), steps[1..], key, v')
    ensures AsGiven(v, steps, key, v')
  {
    var form, year := steps[0].form, steps[0].year;
    assert form.fssaiLicense.Some? ==>
        LicenseHolds(form.fssaiLicense, year) ==
        (form.fssaiLicense.value != "" && VerifyFssaiLicense(form.fssaiLicense.value, year).FssaiValid?);
  }

  lemma SameFactsAsGiven(v: Vendor, w: Vendor, steps: seq<Step>, key: Key, v': Vendor)
    requires steps != [] && !(steps[0].Register? && steps[0].key == key) && Facts(v) == Facts(w)
    requires AsGiven(w, steps[1..], key, v')
    ensures AsGiven(v, steps, key, v')
  {
  }

  lemma {:induction false} RunAsGiven(rows: Registry, steps: seq<Step>, year: int, key: Key)
    requires AllSound(rows, year) && InOrder(steps, year)
    ensures AsGiven(Row(rows, key), steps, key, Row(Run(rows, steps), key))
    decreases |steps|
  {
    if steps != [] {
      var step, v, v' := steps[0], Row(rows, key), Row(Run(rows, steps), key);
      AllSoundLater(rows, year, step.year);
      NextKeepsSound(rows, step);
      RunAsGiven(Next(rows, step), steps[1..], step.year, key);
      if step.Register? && step.key == key {
        RegisteredAsGiven(v, steps, key, v');
      } else {
        if step.Check? && !step.kind.OtherCheck? { CheckedRow(rows, step.key, step.kind, step.year); }
        SameFactsAsGiven(v, Row(Next(rows, step), key), steps, key, v');
      }
    }
  }

  /** Over any run a vendor is PASSED in the store exactly when the last licence given was valid in the
      year it was given, the last tax number given is valid, and the last form states consent, policy,
      aggregator, escrow and refunds; checks make no difference. */
  lemma PassedExactly(steps: seq<Step>, first: int, key: Key)
    requires InOrder(steps, first)
    ensures var rows := Run(map[], steps);
            && AsGiven(AutoCreated(), steps, key, Row(rows, key))
            && (key in rows && rows[key].overall == PASSED <==>
                && LastLicense(steps, key).Some? && LastGst(steps, key).Some? && LastForm(steps, key).Some?
                && var (no, year), gst, f :=
                     LastLicense(steps, key).value, LastGst(steps, key).value, LastForm(steps, key).value;
                && no != "" && VerifyFssaiLicense(no, year).FssaiValid?
                && gst != "" && VerifyGstNumber(gst).GstValid?
                && f.consent && f.policy && f.aggregator && f.escrow && f.refund)
  {
    RunAsGiven(map[], steps, first, key);
    RunKeepsSound(map[], steps, first);
    var rows := Run(map[], steps);
    assert key in rows ==> Sound(rows[key], LastYear(steps, first));
  }

  /** A check answers PASSED exactly for what is marked verified, so a vendor is PASSED in the store
      exactly when each of the four checks would answer PASSED. */
  lemma ChecksAnswerTheFlags(v: Vendor, year: int)
    requires Sound(v, year)
    ensures CheckStatus(Some(v), FSSAI, year) == PASSED <==> v.fssai.verified
    ensures CheckStatus(Some(v), GST, year) == PASSED <==> v.gst.verified
    ensures CheckStatus(Some(v), DPDP, year) == PASSED <==> v.dpdp.verified
    ensures CheckStatus(Some(v), RBI, year) == PASSED <==> v.rbi.verified
    ensures CheckStatus(Some(v), FSSAI, year) == FAILED <==>
            OnFile(v.fssai.number) && !LicenseHolds(v.fssai.number, year)
    ensures CheckStatus(Some(v), GST, year) == FAILED <==> OnFile(v.gst.number) && !GstHolds(v.gst.number)
    ensures CheckStatus(Some(v), DPDP, year) == FAILED <==> !(v.dpdp.consent && v.dpdp.policy)
    ensures CheckStatus(Some(v), RBI, year) == FAILED <==> !(v.rbi.aggregator && v.rbi.escrow && v.rbi.refund)
    ensures v.overall == PASSED <==>
            && CheckStatus(Some(v), FSSAI, year) == PASSED && CheckStatus(Some(v), GST, year) == PASSED
            && CheckStatus(Some(v), DPDP, year) == PASSED && CheckStatus(Some(v), RBI, year) == PASSED
  {
  }

  /** Of any record, sound or not, a check of a number on file that does not hold withdraws its flag and no
      other; consent and payments, once marked, stay so whatever the record says, and unmarked facts are
      never marked by a check. */
  lemma CheckWithdrawsFlags(v: Vendor, kind: CheckType, year: int)
    requires !kind.OtherCheck?
    ensures var v' := WithStatus(Flagged(v, kind, CheckStatus(Some(v), kind, year)));
            && (v'.fssai.verified <==>
                v.fssai.verified && !(kind == FSSAI && OnFile(v.fssai.number) && !LicenseHolds(v.fssai.number, year)))
            && (v'.gst.verified <==>
                v.gst.verified && !(kind == GST && OnFile(v.gst.number) && !GstHolds(v.gst.number)))
            && v'.dpdp == v.dpdp && v'.rbi == v.rbi
            && v'.fssai.number == v.fssai.number && v'.gst.number == v.gst.number
  {
  }

  /** Nothing is decided about an unknown vendor: every answer is PENDING, and a check leaves a record that
      is PENDING in the store as well. */
  lemma UnknownIsPending(rows: Registry, key: Key, kind: CheckType, year: int)
    requires key !in rows && !kind.OtherCheck?
    ensures CheckComplianceStatus(Find(rows, key), year).overall == PENDING
    ensures CheckVendorCompliance(Find(rows, key), year) == PENDING
    ensures CheckStatus(Find(rows, key), kind, year) == PENDING
    ensures var v := AfterCheck(rows, key, kind, year)[key];
            && v.overall == PENDING && v.onboarding == IN_REVIEW && !v.fssai.verified && v.fssai.number.None?
            && !v.gst.verified && v.gst.number.None? && !v.dpdp.verified && !v.rbi.verified
  {
  }

  // ---------------------------------------------------------------------------
  // Where the stored status and the recomputations part
  // ---------------------------------------------------------------------------

  // A failure that everyone sees.
  predicate PlainFailure(v: Vendor, year: int) {
    || (OnFile(v.fssai.number) && !LicenseHolds(v.fssai.number, year))
    || (OnFile(v.gst.number) && !GstHolds(v.gst.number))
    || (v.dpdp.consent && !v.dpdp.policy)
    || (v.rbi.aggregator && !(v.rbi.escrow && v.rbi.refund))
  }

  // The licence holds by now but was registered before its year.
  predicate RegisteredEarly(v: Vendor, year: int) {
    LicenseHolds(v.fssai.number, year) && !v.fssai.verified
  }

  predicate PolicyWithoutConsent(v: Vendor) { v.dpdp.policy && !v.dpdp.consent }

  lemma RecomputedFails(v: Vendor, year: int)
    requires SoundFlags(v, year)
    ensures CheckComplianceStatus(Some(v), year).overall == FAILED <==> PlainFailure(v, year) || PolicyWithoutConsent(v)
  {
  }

  lemma StoredFails(v: Vendor, year: int)
    requires SoundFlags(v, year)
    ensures WithStatus(v).overall == FAILED <==> PlainFailure(v, year) || RegisteredEarly(v, year)
  {
  }

  /** After a check the stored status equals the recomputed one exactly when there is a failure both
      see, or neither or both of the two that only one of them sees. */
  lemma AgreeAfterCheckIff(rows: Registry, key: Key, kind: CheckType, year: int)
    requires AllSound(rows, year) && !kind.OtherCheck?
    ensures var after := AfterCheck(rows, key, kind, year);
            var v := Row(rows, key);
            after[key].overall == CheckComplianceStatus(Find(after, key), year).overall <==>
            PlainFailure(v, year) || (RegisteredEarly(v, year) <==> PolicyWithoutConsent(v))
  {
    var v := Row(rows, key);
    AutoCreatedIsSound(year);
    CheckedRow(rows, key, kind, year);
    StoredFails(v, year);
    SoundPassesTogether(WithStatus(v), year);
    RecomputedFails(WithStatus(v), year);
  }

  /** After a registration they agree exactly when the recomputation sees no failure: the store
      never says FAILED then. */
  lemma AgreeAfterRegisterIff(rows: Registry, key: Key, form: Form, year: int)
    requires AllSound(rows, year)
    ensures var after := AfterRegister(rows, key, form, year);
            after[key].overall == CheckComplianceStatus(Find(after, key), year).overall <==>
            !PlainFailure(after[key], year) && !PolicyWithoutConsent(after[key])
  {
  }

  /** The status route says PASSED for every vendor the store passes, and beyond those only where the
      licence was registered before its year and all else is verified. */
  lemma StatusRoutePassesIff(v: Vendor, year: int)
    requires Sound(v, year)
    ensures CheckVendorCompliance(Some(v), year) == PASSED <==>
            v.overall == PASSED || (RegisteredEarly(v, year) && v.gst.verified && v.dpdp.verified && v.rbi.verified)
    ensures CheckVendorCompliance(Some(v), year) == FAILED <==>
            || (OnFile(v.fssai.number) && !LicenseHolds(v.fssai.number, year))
            || (OnFile(v.gst.number) && !GstHolds(v.gst.number))
            || !(v.dpdp.consent && v.dpdp.policy) || !(v.rbi.aggregator && v.rbi.escrow && v.rbi.refund)
  {
  }

  // A vendor with a licence for the year 2026 and a policy without consent.
  function EarlyForm(): Form {
    Form(Some(FssaiNumber(27, 1, 2026, 1)), None, false, true, None, false, false, false)
  }

  lemma EarlyLicense()
    ensures !LicenseHolds(EarlyForm().fssaiLicense, 2025) && LicenseHolds(EarlyForm().fssaiLicense, 2026)
  {
    var no := FssaiNumber(27, 1, 2026, 1);
    FssaiRoundTrip("", 27, 1, 2026, 1, "", 2025);
    FssaiRoundTrip("", 27, 1, 2026, 1, "", 2026);
    assert "" + no + "" == no;
  }

  lemma EarlyFormsDiffer(key: Key, form: Form, year: int, later: int)
    requires !LicenseHolds(form.fssaiLicense, year) && LicenseHolds(form.fssaiLicense, later)
    requires form.policy && !form.consent
    ensures var rows := AfterRegister(map[], key, form, year);
            && rows[key].overall == PENDING
            && CheckComplianceStatus(Find(rows, key), year).overall == FAILED
            && RegisteredEarly(rows[key], later)
            && AfterCheck(rows, key, FSSAI, later)[key].fssai == rows[key].fssai
  {
  }

  /** Both differences are met. Registering this form in 2025 stores PENDING where the recomputation
      says FAILED; and a check made in 2026 leaves the licence unmarked, though it holds by then. */
  lemma {:induction false} StoreAndRecomputationCanDiffer(key: Key)
    ensures var rows := AfterRegister(map[], key, EarlyForm(), 2025);
            && rows[key].overall == PENDING
            && CheckComplianceStatus(Find(rows, key), 2025).overall == FAILED
            && RegisteredEarly(rows[key], 2026)
            && AfterCheck(rows, key, FSSAI, 2026)[key].fssai == rows[key].fssai
  {
    EarlyLicense();
    EarlyFormsDiffer(key, EarlyForm(), 2025, 2026);
  }
}
