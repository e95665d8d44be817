/**
 * The access-point search of scan_for_ap: after a blocking scan, look for the
 * target SSID among the returned records, first match in scan order, with
 * strcmp's exact comparison of NUL-terminated names. The scan itself is the
 * driver's; its answers (the AP count, whether the record buffer could be
 * allocated, and the records) are the input.
 */
module ApScan {
  import opened StationConfig
  import opened Wrappers

  /** One entry of the scan result. The SSID is the raw, NUL-terminated name
      buffer; the hardware address, channel and authentication mode are kept
      for the record but play no part in the search. */
  datatype ApRecord = ApRecord(ssid: string, bssid: seq<bv8>, channel: nat, rssi: int, authMode: nat)

  /** What the driver answers to one scan: the AP count, whether malloc of the
      record array succeeded, and the records it fills in. */
  datatype ScanInput = ScanInput(apNum: nat, allocOk: bool, records: seq<ApRecord>)

  /** How scan_for_ap ends, with the RSSI it logs when it finds the target. */
  datatype ScanOutcome = NoApFound | AllocFailed | FoundTarget(rssi: int) | TargetNotListed

  /** The C string held in a buffer: everything before the first NUL. */
  function CStr(buf: string): (s: string)
    ensures |s| <= |buf| && s == buf[..|s|]
    ensures forall k :: 0 <= k < |s| ==> s[k] != '\0'
    ensures |s| < |buf| ==> buf[|s|] == '\0'
    decreases |buf|
  {
    if buf == [] || buf[0] == '\0' then [] else [buf[0]] + CStr(buf[1..])
  }

  /** strcmp(record.ssid, WIFI_SSID) == 0. */
  predicate SsidMatches(r: ApRecord) {
    CStr(r.ssid) == WifiSsid
  }

  /** Some record names the target: the search's specification. */
  predicate TargetListed(records: seq<ApRecord>) {
    exists i :: 0 <= i < |records| && SsidMatches(records[i])
  }

  /** Whether scan_for_ap reports the target in range. */
  predicate ScanFindsTarget(scan: ScanInput) {
    scan.apNum > 0 && scan.allocOk && TargetListed(scan.records)
  }

  /** The index of the first record naming the target, in scan order. */
  function FirstMatch(records: seq<ApRecord>): (r: Option<nat>)
    ensures r.Some? ==> r.value < |records| && SsidMatches(records[r.value])
    ensures r.Some? ==> forall j :: 0 <= j < r.value ==> !SsidMatches(records[j])
    ensures r.None? ==> forall j :: 0 <= j < |records| ==> !SsidMatches(records[j])
    decreases |records|
  {
    if records == [] then None
    else if SsidMatches(records[0]) then Some(0)
    else match FirstMatch(records[1..])
      case None => None
      case Some(k) => Some(k + 1)
  }

  /** What scan_for_ap does with the driver's answers: give up on no AP or a
      failed allocation before looking at any record, else report the first
      match and its RSSI. */
  function ScanSpec(scan: ScanInput): ScanOutcome {
    if scan.apNum == 0 then NoApFound
    else if !scan.allocOk then AllocFailed
    else match FirstMatch(scan.records)
      case Some(k) => FoundTarget(scan.records[k].rssi)
      case None => TargetNotListed
  }

  /** The search finds something exactly when the target is listed, and the
      RSSI reported is that of the lowest-index record naming it, even when
      later duplicates are stronger. */
  lemma ScanSpecFindsFirst(scan: ScanInput)
    ensures ScanSpec(scan).FoundTarget? <==> ScanFindsTarget(scan)
    ensures ScanSpec(scan).FoundTarget? ==>
      (exists i :: 0 <= i < |scan.records| && SsidMatches(scan.records[i])
        && (forall j :: 0 <= j < i ==> !SsidMatches(scan.records[j]))
        && ScanSpec(scan).rssi == scan.records[i].rssi)
  {
  }

  /** The early exits look at no record: with no AP or no buffer the outcome
      is the same whatever the records, and the target is not reported. */
  lemma EarlyExitIgnoresRecords(apNum: nat, allocOk: bool, r1: seq<ApRecord>, r2: seq<ApRecord>)
    requires apNum == 0 || !allocOk
    ensures ScanSpec(ScanInput(apNum, allocOk, r1)) == ScanSpec(ScanInput(apNum, allocOk, r2))
    ensures !ScanSpec(ScanInput(apNum, allocOk, r1)).FoundTarget?
  {
  }

  /** The search stops at the first match: whatever follows a matching prefix
      is never consulted, and a prefix without a match shifts the later one. */
  lemma FirstMatchAppend(a: seq<ApRecord>, b: seq<ApRecord>)
    ensures FirstMatch(a).Some? ==> FirstMatch(a + b) == FirstMatch(a)
    ensures FirstMatch(a).None? && FirstMatch(b).Some? ==> FirstMatch(a + b) == Some(|a| + FirstMatch(b).value)
    ensures FirstMatch(a).None? && FirstMatch(b).None? ==> FirstMatch(a + b) == None
  {
    if FirstMatch(a).Some? {
      AppendKeepsPrefixMatch(a, b);
    } else if FirstMatch(b).Some? {
      AppendShiftsMatch(a, b);
    } else {
      AppendNoMatch(a, b);
    }
  }

  lemma AppendKeepsPrefixMatch(a: seq<ApRecord>, b: seq<ApRecord>)
    requires FirstMatch(a).Some?
    ensures FirstMatch(a + b) == FirstMatch(a)
  {
    var k := FirstMatch(a).value;
    var ab := a + b;
    forall j | 0 <= j <= k ensures ab[j] == a[j] { }
    FirstMatchIsUnique(ab, k);
  }

  lemma AppendShiftsMatch(a: seq<ApRecord>, b: seq<ApRecord>)
    requires FirstMatch(a).None? && FirstMatch(b).Some?
    ensures FirstMatch(a + b) == Some(|a| + FirstMatch(b).value)
  {
    var k := FirstMatch(b).value;
    var ab := a + b;
    forall j | 0 <= j < |a| + k ensures !SsidMatches(ab[j]) {
      if j < |a| {
        assert ab[j] == a[j];
      } else {
        assert ab[j] == b[j - |a|];
      }
    }
    assert ab[|a| + k] == b[k];
    FirstMatchIsUnique(ab, |a| + k);
  }

  lemma AppendNoMatch(a: seq<ApRecord>, b: seq<ApRecord>)
    requires FirstMatch(a).None? && FirstMatch(b).None?
    ensures FirstMatch(a + b) == None
  {
    var ab := a + b;
    forall j | 0 <= j < |ab| ensures !SsidMatches(ab[j]) {
      if j < |a| {
        assert ab[j] == a[j];
      } else {
        assert ab[j] == b[j - |a|];
      }
    }
  }

  /** A matching index with no match before it is the one FirstMatch gives. */
  lemma FirstMatchIsUnique(records: seq<ApRecord>, k: nat)
    requires k < |records| && SsidMatches(records[k])
    requires forall j :: 0 <= j < k ==> !SsidMatches(records[j])
    ensures FirstMatch(records) == Some(k)
  {
  }

  /** A name without NUL, terminated, reads back as itself whatever follows the terminator. */
  lemma {:induction false} CStrOfTerminated(name: string, rest: string)
    requires forall k :: 0 <= k < |name| ==> name[k] != '\0'
    ensures CStr(name + ['\0'] + rest) == name
    decreases |name|
  {
    if name != [] {
      assert (name + ['\0'] + rest)[1..] == name[1..] + ['\0'] + rest;
      CStrOfTerminated(name[1..], rest);
    }
  }

  /** strcmp compares whole names: the target's name followed by NUL matches
      whatever padding follows, while a longer name or a proper prefix of the
      target does not. */
  lemma StrcmpIsExact(rssi: int)
    ensures SsidMatches(ApRecord(WifiSsid + "\0\0junk", [], 1, rssi, 3))
    ensures !SsidMatches(ApRecord("420C_5G\0", [], 1, rssi, 3))
    ensures !SsidMatches(ApRecord("420\0C", [], 1, rssi, 3))
  {
    CStrOfTerminated(WifiSsid, "\0junk");
    assert WifiSsid + ['\0'] + "\0junk" == WifiSsid + "\0\0junk";
    CStrOfTerminated("420C_5G", "");
    assert "420C_5G" + ['\0'] + "" == "420C_5G\0";
    CStrOfTerminated("420", "C");
    assert "420" + ['\0'] + "C" == "420\0C";
  }

  /** scan_for_ap from the point the AP count is known: the two early
      returns, then a linear search that breaks at the first record whose
      SSID is the target. */
  method ScanForAp(scan: ScanInput) returns (found: bool, outcome: ScanOutcome)
    ensures found <==> ScanFindsTarget(scan)
    ensures found <==> outcome.FoundTarget?
    ensures outcome == ScanSpec(scan)
  {
    if scan.apNum == 0 {
      return false, NoApFound;
    }
    if !scan.allocOk {
      return false, AllocFailed;
    }
    var records := scan.records;
    found, outcome := false, TargetNotListed;
    var i := 0;
    while i < |records|
      invariant 0 <= i <= |records|
      invariant !found && outcome == TargetNotListed
      invariant forall j :: 0 <= j < i ==> !SsidMatches(records[j])
    {
      if SsidMatches(records[i]) {
        found, outcome := true, FoundTarget(records[i].rssi);
        FirstMatchIsUnique(records, i);
        break;
      }
      i := i + 1;
    }
  }
}
