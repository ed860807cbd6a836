/** Which device and slot a request is for, and when a bulk request's memo gives the right answer. */
module RequestedRoute {
  import opened SmsTypes
  import opened DeliveryState
  import AmountParser

  datatype RouteRequest = RouteRequest(gatewayUid: Option<string>, device: Option<string>, slot: Option<nat>)

  datatype Resolution =
    | Resolved(gateway: Option<GatewayId>, slot: Option<nat>)
    | Refused(code: ErrorCode)

  /** The devices on record. `deviceCode` gives the code a typed name stands for, if it is one;
      uids and codes are unique. */
  datatype Devices = Devices(
    deviceCode: string -> Option<string>,
    byUid: map<string, GatewayId>,
    byCode: map<string, GatewayId>,
    assignments: map<GatewayId, Assignment>,
    slots: set<(GatewayId, nat)>)

  /** A name that was given, and is not the empty string. */
  predicate IsNamed(name: Option<string>) {
    name.Some? && name.value != ""
  }

  function AssignmentIn(devices: Devices, g: GatewayId): Assignment {
    if g in devices.assignments then devices.assignments[g] else Unassigned
  }

  /** The device a typed code stands for, if it is the tenant's. */
  function OwnDevice(devices: Devices, tenant: TenantId, name: string): Option<GatewayId> {
    var code := devices.deviceCode(name);
    if code.Some? && code.value in devices.byCode
       && AssignmentIn(devices, devices.byCode[code.value]) == Owned(tenant)
    then Some(devices.byCode[code.value]) else None
  }

  /** The device with this uid, if it serves the pool or the tenant. */
  function UsableGateway(devices: Devices, tenant: TenantId, uid: string): Option<GatewayId> {
    if uid in devices.byUid && AssignmentIn(devices, devices.byUid[uid]) in [Pool, Owned(tenant)]
    then Some(devices.byUid[uid]) else None
  }

  /** The device a request names, if it names one. */
  function NamedGateway(devices: Devices, tenant: TenantId, request: RouteRequest): Option<GatewayId> {
    if IsNamed(request.device) then OwnDevice(devices, tenant, request.device.value)
    else if IsNamed(request.gatewayUid) then UsableGateway(devices, tenant, request.gatewayUid.value)
    else None
  }

  function Resolve(devices: Devices, tenant: TenantId, request: RouteRequest): Resolution {
    var gateway := NamedGateway(devices, tenant, request);
    if IsNamed(request.gatewayUid) && IsNamed(request.device) then Refused(VALIDATION_FAILED)
    else if gateway.None? && (IsNamed(request.gatewayUid) || IsNamed(request.device)) then Refused(GATEWAY_NOT_FOUND)
    else if request.slot.None? then Resolved(gateway, None)
    else if gateway.None? then Refused(VALIDATION_FAILED)
    else if (gateway.value, request.slot.value) !in devices.slots then Refused(VALIDATION_FAILED)
    else Resolved(gateway, request.slot)
  }

  /** Every granted route is usable: its device serves the tenant, has the slot, and the slot is
      the one asked for. */
  lemma ResolvedRoutesAreAllowed(devices: Devices, tenant: TenantId, request: RouteRequest)
    ensures var r := Resolve(devices, tenant, request);
            r.Resolved? ==>
              && r.slot == request.slot
              && (r.slot.Some? ==> r.gateway.Some? && (r.gateway.value, r.slot.value) in devices.slots)
              && (r.gateway.Some? ==>
                    var assignment := AssignmentIn(devices, r.gateway.value);
                    assignment == Owned(tenant) || (assignment.Pool? && !IsNamed(request.device)))
              && (r.gateway.None? <==> !IsNamed(request.device) && !IsNamed(request.gatewayUid))
  {
  }

  // ---- the bulk memo's key ------------------------------------------------------------

  function NameText(name: Option<string>): string {
    if name.Some? then name.value else ""
  }

  function SlotText(slot: Option<nat>): string {
    if slot.Some? then AmountParser.Print(slot.value) else ""
  }

  function RouteKey(request: RouteRequest): string {
    NameText(request.gatewayUid) + "|" + NameText(request.device) + "|" + SlotText(request.slot)
  }

  predicate HasPipe(request: RouteRequest) {
    '|' in NameText(request.gatewayUid) || '|' in NameText(request.device)
  }

  lemma SlotTextsDiffer(a: Option<nat>, b: Option<nat>)
    ensures SlotText(a) == SlotText(b) ==> a == b
    ensures '|' !in SlotText(a)
  {
    assert a.Some? ==> AmountParser.AllDigits(SlotText(a));
  }

  /** Equal concatenations around a last pipe have equal parts. */
  lemma SplitAtLastPipe(a: string, b: string, c: string, d: string)
    requires '|' !in b && '|' !in d && a + "|" + b == c + "|" + d
    ensures a == c && b == d
  {
    var s := a + "|" + b;
    assert s[|a|] == '|' && s[|c|] == '|';
    assert forall i :: |a| < i < |s| ==> s[i] == b[i - |a| - 1];
    assert forall i :: |c| < i < |s| ==> s[i] == d[i - |c| - 1];
    assert a == s[..|a|] && c == s[..|c|] && b == s[|a| + 1..] && d == s[|c| + 1..];
  }

  /** Requests with one key name the same slot, and their names, joined, are the same text. */
  lemma EqualKeysJoinAlike(r: RouteRequest, s: RouteRequest)
    requires RouteKey(r) == RouteKey(s)
    ensures r.slot == s.slot
    ensures NameText(r.gatewayUid) + "|" + NameText(r.device) == NameText(s.gatewayUid) + "|" + NameText(s.device)
  {
    hide NameText, SlotText;
    SlotTextsDiffer(r.slot, s.slot); SlotTextsDiffer(s.slot, r.slot);
    SplitAtLastPipe(NameText(r.gatewayUid) + "|" + NameText(r.device), SlotText(r.slot),
                    NameText(s.gatewayUid) + "|" + NameText(s.device), SlotText(s.slot));
  }

  /** One text, split at two of its pipes: the same parts, or one split moves a piece between a
      pipe and the other one over to the next part. */
  lemma TwoSplits(a: string, b: string, c: string, d: string) returns (x: string)
    requires a + "|" + b == c + "|" + d
    ensures (a == c && b == d) || (a == c + "|" + x && d == x + "|" + b) || (c == a + "|" + x && b == x + "|" + d)
  {
    var s := a + "|" + b;
    x := "";
    if |c| < |a| {
      x := a[|c| + 1..];
      assert s[|c|] == '|' && a[|c|] == s[|c|] && a[..|c|] == s[..|c|] == c;
      assert d == s[|c| + 1..] == x + "|" + b;
    } else if |a| < |c| {
      x := c[|a| + 1..];
      assert s[|a|] == '|' && c[|a|] == s[|a|] && c[..|a|] == s[..|a|] == a;
      assert b == s[|a| + 1..] == x + "|" + d;
    } else {
      assert a == s[..|a|] && c == s[..|a|] && b == s[|a| + 1..] && d == s[|a| + 1..];
    }
  }

  // ---- which requests may share an answer ---------------------------------------------------------

  predicate SameNames(r: RouteRequest, s: RouteRequest) {
    NameText(r.gatewayUid) == NameText(s.gatewayUid) && NameText(r.device) == NameText(s.device)
  }

  predicate NamesTwo(r: RouteRequest) {
    IsNamed(r.gatewayUid) && IsNamed(r.device)
  }

  /** It names one device, which no tables know: a uid with a pipe, or what is no device code. */
  predicate NamesUnknown(deviceCode: string -> Option<string>, r: RouteRequest) {
    && IsNamed(r.gatewayUid) != IsNamed(r.device)
    && if IsNamed(r.device) then deviceCode(r.device.value).None? else '|' in r.gatewayUid.value
  }

  /** Requests with one key come to the same: they have the same names, or are refused alike. */
  predicate ReadAlike(deviceCode: string -> Option<string>, r: RouteRequest, s: RouteRequest) {
    || SameNames(r, s)
    || (NamesTwo(r) && NamesTwo(s))
    || (NamesUnknown(deviceCode, r) && NamesUnknown(deviceCode, s))
  }

  /** Uids are issued by the platform, and have no pipe. */
  ghost predicate PipeFreeUids(devices: Devices) {
    forall uid :: uid in devices.byUid ==> '|' !in uid
  }

  /** The tables a platform that reads device codes this way can have. */
  ghost predicate IsOnRecord(devices: Devices, deviceCode: string -> Option<string>) {
    devices.deviceCode == deviceCode && PipeFreeUids(devices)
  }

  /** Two requests may get one answer from the memo with these devices on record. */
  ghost predicate MayShareAnswer(devices: Devices, r: RouteRequest, s: RouteRequest) {
    RouteKey(r) == RouteKey(s) ==> SameNames(r, s) || (PipeFreeUids(devices) && ReadAlike(devices.deviceCode, r, s))
  }

  lemma SameNamesResolveAlike(devices: Devices, tenant: TenantId, r: RouteRequest, s: RouteRequest)
    requires SameNames(r, s) && r.slot == s.slot
    ensures Resolve(devices, tenant, r) == Resolve(devices, tenant, s)
  {
  }

  lemma RefusedNames(devices: Devices, tenant: TenantId, r: RouteRequest)
    requires PipeFreeUids(devices)
    ensures NamesTwo(r) ==> Resolve(devices, tenant, r) == Refused(VALIDATION_FAILED)
    ensures NamesUnknown(devices.deviceCode, r) ==> Resolve(devices, tenant, r) == Refused(GATEWAY_NOT_FOUND)
  {
  }

  /** The memo's answer to one of them is the other's own. */
  lemma EqualKeysResolveEqually(devices: Devices, tenant: TenantId, r: RouteRequest, s: RouteRequest)
    requires MayShareAnswer(devices, r, s) && RouteKey(r) == RouteKey(s)
    ensures Resolve(devices, tenant, r) == Resolve(devices, tenant, s)
  {
    hide Resolve, RouteKey;
    EqualKeysJoinAlike(r, s);
    if SameNames(r, s) {
      SameNamesResolveAlike(devices, tenant, r, s);
    } else {
      RefusedNames(devices, tenant, r); RefusedNames(devices, tenant, s);
    }
  }

  // ---- and which may not --------------------------------------------------------------------------

  function NothingOnRecord(deviceCode: string -> Option<string>): Devices {
    Devices(deviceCode, map[], map[], map[], {})
  }

  /** The tenant's one device, known by its code, with whatever slot is asked for. */
  function OwnDeviceOnly(deviceCode: string -> Option<string>, tenant: TenantId, code: string, slot: Option<nat>)
    : Devices {
    Devices(deviceCode, map[], map[code := 0], map[0 := Owned(tenant)], if slot.Some? then {(0, slot.value)} else {})
  }

  /** With nothing on record, one name is unknown and two are one too many. */
  lemma NothingIsFound(deviceCode: string -> Option<string>, tenant: TenantId, r: RouteRequest)
    requires IsNamed(r.gatewayUid) || IsNamed(r.device)
    ensures Resolve(NothingOnRecord(deviceCode), tenant, r)
         == Refused(if NamesTwo(r) then VALIDATION_FAILED else GATEWAY_NOT_FOUND)
  {
  }

  lemma OwnDeviceIsFound(deviceCode: string -> Option<string>, tenant: TenantId, code: string, r: RouteRequest)
    requires IsNamed(r.device) && !IsNamed(r.gatewayUid) && deviceCode(r.device.value) == Some(code)
    ensures Resolve(OwnDeviceOnly(deviceCode, tenant, code, r.slot), tenant, r) == Resolved(Some(0), r.slot)
  {
  }

  /** Joined names that are split at two different pipes: both halves of one key have a name, and
      a lone uid has a pipe of its own. */
  lemma SplitElsewhere(r: RouteRequest, s: RouteRequest)
    requires RouteKey(r) == RouteKey(s) && !SameNames(r, s)
    ensures IsNamed(r.gatewayUid) || IsNamed(r.device)
    ensures !NamesTwo(r) && !NamesTwo(s) ==> IsNamed(r.device) != IsNamed(s.device)
    ensures !NamesTwo(r) && !NamesTwo(s) && IsNamed(r.gatewayUid) ==> '|' in r.gatewayUid.value
  {
    hide RouteKey;
    EqualKeysJoinAlike(r, s);
    var a, b, c, d := NameText(r.gatewayUid), NameText(r.device), NameText(s.gatewayUid), NameText(s.device);
    var x := TwoSplits(a, b, c, d);
    assert a == c + "|" + x ==> a[|c|] == '|';
  }

  /** A device found by its code, and a uid that is not, under one key. */
  lemma CodeAndUidDiffer(deviceCode: string -> Option<string>, tenant: TenantId, r: RouteRequest, s: RouteRequest)
    returns (devices: Devices)
    requires IsNamed(r.device) && !IsNamed(r.gatewayUid) && deviceCode(r.device.value).Some? && r.slot == s.slot
    requires IsNamed(s.gatewayUid) && !IsNamed(s.device)
    ensures IsOnRecord(devices, deviceCode) && Resolve(devices, tenant, r) != Resolve(devices, tenant, s)
  {
    var code := deviceCode(r.device.value).value;
    OwnDeviceIsFound(deviceCode, tenant, code, r);
    devices := OwnDeviceOnly(deviceCode, tenant, code, r.slot);
  }

  lemma ReadDifferently(deviceCode: string -> Option<string>, tenant: TenantId, r: RouteRequest, s: RouteRequest)
    returns (devices: Devices)
    requires RouteKey(r) == RouteKey(s) && !ReadAlike(deviceCode, r, s)
    ensures IsOnRecord(devices, deviceCode) && Resolve(devices, tenant, r) != Resolve(devices, tenant, s)
  {
    hide Resolve, RouteKey;
    EqualKeysJoinAlike(r, s);
    SplitElsewhere(r, s); SplitElsewhere(s, r);
    if NamesTwo(r) || NamesTwo(s) {
      devices := NothingOnRecord(deviceCode);
      NothingIsFound(deviceCode, tenant, r); NothingIsFound(deviceCode, tenant, s);
    } else if IsNamed(r.device) {
      devices := CodeAndUidDiffer(deviceCode, tenant, r, s);
    } else {
      devices := CodeAndUidDiffer(deviceCode, tenant, s, r);
    }
  }

  /** Two requests with one key resolve alike, whatever devices are on record, if and only if they
      are read alike. */
  lemma ResolveAlikeIff(deviceCode: string -> Option<string>, tenant: TenantId, r: RouteRequest, s: RouteRequest)
    requires RouteKey(r) == RouteKey(s)
    ensures (forall devices :: IsOnRecord(devices, deviceCode) ==>
               Resolve(devices, tenant, r) == Resolve(devices, tenant, s))
       <==> ReadAlike(deviceCode, r, s)
  {
    hide Resolve, RouteKey, ReadAlike, PipeFreeUids;
    if ReadAlike(deviceCode, r, s) {
      forall devices | IsOnRecord(devices, deviceCode)
        ensures Resolve(devices, tenant, r) == Resolve(devices, tenant, s)
      {
        EqualKeysResolveEqually(devices, tenant, r, s);
      }
    } else {
      var devices := ReadDifferently(deviceCode, tenant, r, s);
    }
  }

  // ---- one request among all that may come with it ------------------------------------------------

  function JoinedNames(r: RouteRequest): string {
    NameText(r.gatewayUid) + "|" + NameText(r.device)
  }

  /** The names of `r`, read with the pipe at `i` as the one between them. */
  function ReadAt(r: RouteRequest, i: nat): RouteRequest
    requires i < |JoinedNames(r)|
  {
    RouteRequest(Some(JoinedNames(r)[..i]), Some(JoinedNames(r)[i + 1..]), r.slot)
  }

  /** Which names a validator lets through, as texts; a name that is not given is empty. */
  type Validator = (string, string) -> bool

  predicate Admits(admits: Validator, r: RouteRequest) {
    admits(NameText(r.gatewayUid), NameText(r.device))
  }

  /** Every other reading of the names, at another of their pipes, that the validator lets through
      is read alike. */
  predicate MemoSafeAmong(admits: Validator, deviceCode: string -> Option<string>, r: RouteRequest) {
    forall i :: 0 <= i < |JoinedNames(r)| && JoinedNames(r)[i] == '|' && Admits(admits, ReadAt(r, i)) ==>
      ReadAlike(deviceCode, r, ReadAt(r, i))
  }

  lemma ReadingsShareKey(r: RouteRequest, i: nat)
    requires i < |JoinedNames(r)| && JoinedNames(r)[i] == '|'
    ensures RouteKey(ReadAt(r, i)) == RouteKey(r)
  {
    hide SlotText;
    var names := JoinedNames(r);
    assert names == names[..i] + "|" + names[i + 1..];
  }

  lemma KeySharersAreReadings(r: RouteRequest, s: RouteRequest) returns (i: nat)
    requires RouteKey(r) == RouteKey(s)
    ensures i < |JoinedNames(r)| && JoinedNames(r)[i] == '|' && SameNames(s, ReadAt(r, i))
  {
    hide RouteKey;
    EqualKeysJoinAlike(r, s);
    i := |NameText(s.gatewayUid)|;
    var names := NameText(s.gatewayUid) + "|" + NameText(s.device);
    assert names[..i] == NameText(s.gatewayUid) && names[i + 1..] == NameText(s.device);
  }

  lemma SameNamesReadAlike(deviceCode: string -> Option<string>, r: RouteRequest, s: RouteRequest, s': RouteRequest)
    requires SameNames(s, s')
    ensures ReadAlike(deviceCode, r, s) == ReadAlike(deviceCode, r, s')
  {
  }

  lemma SharersReadAlikeIff(admits: Validator, deviceCode: string -> Option<string>, r: RouteRequest)
    ensures (forall s :: Admits(admits, s) && RouteKey(r) == RouteKey(s) ==> ReadAlike(deviceCode, r, s))
       <==> MemoSafeAmong(admits, deviceCode, r)
  {
    hide RouteKey, ReadAlike, JoinedNames, ReadAt;
    forall i | 0 <= i < |JoinedNames(r)| && JoinedNames(r)[i] == '|' ensures RouteKey(ReadAt(r, i)) == RouteKey(r) {
      ReadingsShareKey(r, i);
    }
    forall s | RouteKey(r) == RouteKey(s)
      ensures exists i :: && 0 <= i < |JoinedNames(r)| && JoinedNames(r)[i] == '|'
                          && Admits(admits, s) == Admits(admits, ReadAt(r, i))
                          && ReadAlike(deviceCode, r, s) == ReadAlike(deviceCode, r, ReadAt(r, i))
    {
      var i := KeySharersAreReadings(r, s);
      SameNamesReadAlike(deviceCode, r, s, ReadAt(r, i));
    }
  }

  /** Where that fails, an admitted request shares the key and, with tables a platform can have,
      resolves differently. */
  lemma PipesConfuseRoutes(admits: Validator, deviceCode: string -> Option<string>, tenant: TenantId, r: RouteRequest)
    returns (s: RouteRequest, devices: Devices)
    requires !MemoSafeAmong(admits, deviceCode, r)
    ensures Admits(admits, s) && IsOnRecord(devices, deviceCode) && RouteKey(r) == RouteKey(s)
    ensures Resolve(devices, tenant, r) != Resolve(devices, tenant, s)
  {
    hide Resolve, RouteKey, ReadAlike, MemoSafeAmong, PipeFreeUids, Admits;
    SharersReadAlikeIff(admits, deviceCode, r);
    s :| Admits(admits, s) && RouteKey(r) == RouteKey(s) && !ReadAlike(deviceCode, r, s);
    devices := ReadDifferently(deviceCode, tenant, r, s);
  }

  /** A request may rely on the memo, whatever else a validator lets into the same call and
      whatever devices are on record, if and only if it is `MemoSafeAmong` what it lets through. */
  lemma AdmittedMemoIsSoundIff(admits: Validator, deviceCode: string -> Option<string>, tenant: TenantId,
                               r: RouteRequest)
    ensures (forall s, devices :: Admits(admits, s) && IsOnRecord(devices, deviceCode) && RouteKey(r) == RouteKey(s) ==>
               Resolve(devices, tenant, r) == Resolve(devices, tenant, s))
       <==> MemoSafeAmong(admits, deviceCode, r)
  {
    hide Resolve, RouteKey, ReadAlike, MemoSafeAmong, PipeFreeUids, Admits;
    if MemoSafeAmong(admits, deviceCode, r) {
      forall s, devices | Admits(admits, s) && IsOnRecord(devices, deviceCode) && RouteKey(r) == RouteKey(s)
        ensures Resolve(devices, tenant, r) == Resolve(devices, tenant, s)
      {
        SharersReadAlikeIff(admits, deviceCode, r);
        ResolveAlikeIff(deviceCode, tenant, r, s);
      }
    } else {
      var s, devices := PipesConfuseRoutes(admits, deviceCode, tenant, r);
    }
  }

  // ---- among all requests there are ---------------------------------------------------------------

  /** The only pipe of a name is its last character, or its first. */
  predicate OnlyPipeIsLast(name: string) {
    name != "" && name[|name| - 1] == '|' && '|' !in name[..|name| - 1]
  }

  predicate OnlyPipeIsFirst(name: string) {
    name != "" && name[0] == '|' && '|' !in name[1..]
  }

  /** What a request has to avoid when nothing is refused beforehand. Naming two devices, it is
      refused anyway, and must only not share its key with a request that names one. Naming one,
      it must not have a pipe, but for a name that is unknown either way it is read. */
  predicate MemoSafe(deviceCode: string -> Option<string>, request: RouteRequest) {
    var uid, device := NameText(request.gatewayUid), NameText(request.device);
    if uid != "" && device != "" then uid[0] != '|' && device[|device| - 1] != '|'
    else if device != "" then '|' in device ==> OnlyPipeIsLast(device) && deviceCode(device).None?
    else '|' in uid ==> OnlyPipeIsFirst(uid) && deviceCode(uid[1..] + "|").None?
  }

  predicate AdmitsAll(uid: string, device: string) {
    true
  }

  lemma TwoNamesAreSafeIff(deviceCode: string -> Option<string>, r: RouteRequest)
    requires NamesTwo(r)
    ensures MemoSafeAmong(AdmitsAll, deviceCode, r) <==> MemoSafe(deviceCode, r)
  {
    var names, uid, device := JoinedNames(r), r.gatewayUid.value, r.device.value;
    assert names[0] == uid[0] && names[|names| - 1] == device[|device| - 1];
    if MemoSafeAmong(AdmitsAll, deviceCode, r) {
      assert names[0] == '|' ==> ReadAlike(deviceCode, r, ReadAt(r, 0));
      assert names[|names| - 1] == '|' ==> ReadAlike(deviceCode, r, ReadAt(r, |names| - 1));
    }
  }

  /** Where the pipes of a lone device's name are, and what it is at each of them. */
  lemma DeviceReadings(deviceCode: string -> Option<string>, r: RouteRequest, i: nat)
    requires IsNamed(r.device) && !IsNamed(r.gatewayUid) && 0 < i < |JoinedNames(r)|
    ensures JoinedNames(r)[i] == r.device.value[i - 1]
    ensures ReadAlike(deviceCode, r, ReadAt(r, i))
       <==> i == |r.device.value| && deviceCode(r.device.value).None?
  {
    assert JoinedNames(r) == "|" + r.device.value;
    assert ReadAt(r, i).gatewayUid.value[0] == '|';
  }

  lemma DeviceIsSafeIff(deviceCode: string -> Option<string>, r: RouteRequest)
    requires IsNamed(r.device) && !IsNamed(r.gatewayUid)
    ensures MemoSafeAmong(AdmitsAll, deviceCode, r) <==> MemoSafe(deviceCode, r)
  {
    hide ReadAlike, JoinedNames, ReadAt;
    var device := r.device.value;
    OwnReading(deviceCode, r);
    forall i | 0 < i < |JoinedNames(r)|
      ensures JoinedNames(r)[i] == device[i - 1]
      ensures ReadAlike(deviceCode, r, ReadAt(r, i)) <==> i == |device| && deviceCode(device).None?
    {
      DeviceReadings(deviceCode, r, i);
    }
    if MemoSafeAmong(AdmitsAll, deviceCode, r) {
      forall k | 0 <= k < |device| && device[k] == '|' ensures k == |device| - 1 && deviceCode(device).None? {
        assert JoinedNames(r)[k + 1] == '|';
      }
    }
  }

  lemma UidReadings(deviceCode: string -> Option<string>, r: RouteRequest, i: nat)
    requires IsNamed(r.gatewayUid) && !IsNamed(r.device) && i < |r.gatewayUid.value|
    ensures |JoinedNames(r)| == |r.gatewayUid.value| + 1 && JoinedNames(r)[i] == r.gatewayUid.value[i]
    ensures r.gatewayUid.value[i] == '|' ==>
              (ReadAlike(deviceCode, r, ReadAt(r, i)) <==>
                 i == 0 && deviceCode(r.gatewayUid.value[1..] + "|").None?)
  {
    assert JoinedNames(r) == r.gatewayUid.value + "|";
    assert JoinedNames(r)[i + 1..] == r.gatewayUid.value[i + 1..] + "|";
  }

  lemma UidIsSafeIff(deviceCode: string -> Option<string>, r: RouteRequest)
    requires IsNamed(r.gatewayUid) && !IsNamed(r.device)
    ensures MemoSafeAmong(AdmitsAll, deviceCode, r) <==> MemoSafe(deviceCode, r)
  {
    hide ReadAlike, JoinedNames, ReadAt;
    var uid := r.gatewayUid.value;
    OwnReading(deviceCode, r);
    forall i | 0 <= i < |uid|
      ensures |JoinedNames(r)| == |uid| + 1 && JoinedNames(r)[i] == uid[i]
      ensures uid[i] == '|' ==>
                (ReadAlike(deviceCode, r, ReadAt(r, i)) <==> i == 0 && deviceCode(uid[1..] + "|").None?)
    {
      UidReadings(deviceCode, r, i);
    }
    if MemoSafeAmong(AdmitsAll, deviceCode, r) {
      forall k | 0 <= k < |uid| && uid[k] == '|' ensures k == 0 && deviceCode(uid[1..] + "|").None? {
        assert JoinedNames(r)[k] == '|';
      }
    }
  }

  lemma OwnReading(deviceCode: string -> Option<string>, r: RouteRequest)
    ensures |JoinedNames(r)| == |NameText(r.gatewayUid)| + |NameText(r.device)| + 1
    ensures ReadAlike(deviceCode, r, ReadAt(r, |NameText(r.gatewayUid)|))
  {
  }

  /** With nothing refused beforehand, that comes to `MemoSafe`. */
  lemma MemoSafeIff(deviceCode: string -> Option<string>, r: RouteRequest)
    ensures MemoSafeAmong(AdmitsAll, deviceCode, r) <==> MemoSafe(deviceCode, r)
  {
    if NamesTwo(r) {
      TwoNamesAreSafeIff(deviceCode, r);
    } else if IsNamed(r.device) {
      DeviceIsSafeIff(deviceCode, r);
    } else if IsNamed(r.gatewayUid) {
      UidIsSafeIff(deviceCode, r);
    } else {
      OwnReading(deviceCode, r);
    }
  }

  /** Any request may rely on the memo, whatever else is in the same call and whatever devices are
      on record, if and only if it is `MemoSafe`. */
  lemma RouteMemoIsSoundIff(deviceCode: string -> Option<string>, tenant: TenantId, r: RouteRequest)
    ensures (forall s, devices :: IsOnRecord(devices, deviceCode) && RouteKey(r) == RouteKey(s) ==>
               Resolve(devices, tenant, r) == Resolve(devices, tenant, s))
       <==> MemoSafe(deviceCode, r)
  {
    hide Resolve, RouteKey, MemoSafe, MemoSafeAmong, PipeFreeUids;
    AdmittedMemoIsSoundIff(AdmitsAll, deviceCode, tenant, r);
    MemoSafeIff(deviceCode, r);
    assert forall s :: Admits(AdmitsAll, s);
  }

  /** A request whose names have no pipe may rely on it with any devices on record. */
  lemma PlainNamesMayShare(devices: Devices, r: RouteRequest, s: RouteRequest)
    requires !HasPipe(r)
    ensures MayShareAnswer(devices, r, s)
  {
    hide RouteKey;
    if RouteKey(r) == RouteKey(s) {
      EqualKeysJoinAlike(r, s);
      var c, d := NameText(s.gatewayUid), NameText(s.device);
      var x := TwoSplits(NameText(r.gatewayUid), NameText(r.device), c, d);
      JoinHasPipe(c, x); JoinHasPipe(x, d);
    }
  }

  lemma JoinHasPipe(front: string, back: string)
    ensures '|' in front + "|" + back
  {
    assert (front + "|" + back)[|front|] == '|';
  }

  lemma SafeAmongMayShare(admits: Validator, devices: Devices, r: RouteRequest, s: RouteRequest)
    requires PipeFreeUids(devices) && MemoSafeAmong(admits, devices.deviceCode, r) && Admits(admits, s)
    ensures MayShareAnswer(devices, r, s)
  {
    hide RouteKey, MemoSafeAmong, ReadAlike, Admits;
    SharersReadAlikeIff(admits, devices.deviceCode, r);
  }

  /** The lengths the validator of requests lets through. */
  predicate Validated(uid: string, device: string) {
    |uid| <= 40 && (device == "" || 8 <= |device| <= 16)
  }

  lemma LengthsAtTheBounds(uid: string, device: string)
    ensures |uid| == 40 && |device| in {0, 8, 16} ==> Validated(uid, device)
    ensures |uid| == 41 || |device| in {1, 7, 17} ==> !Validated(uid, device)
  {
  }

  /** Some requests are safe only because of it: two names of which the uid begins with a pipe, and
      no other pipe, are safe if and only if what they make together is too long for the name of a
      device. */
  lemma LongReadingsAreRefused(deviceCode: string -> Option<string>, r: RouteRequest)
    requires NamesTwo(r) && Admits(Validated, r) && r.gatewayUid.value[0] == '|'
    requires '|' !in r.gatewayUid.value[1..] && '|' !in r.device.value
    ensures MemoSafeAmong(Validated, deviceCode, r) <==> |r.gatewayUid.value| + |r.device.value| > 16
    ensures !MemoSafe(deviceCode, r)
  {
    var names, uid := JoinedNames(r), r.gatewayUid.value;
    OwnReading(deviceCode, r);
    assert forall i :: 0 < i < |uid| ==> names[i] == uid[1..][i - 1];
    assert forall i :: |uid| < i < |names| ==> names[i] == r.device.value[i - |uid| - 1];
    assert names[0] == '|' && |JoinedNames(r)[1..]| == |uid| + |r.device.value|;
    assert Admits(Validated, ReadAt(r, 0)) <==> |uid| + |r.device.value| <= 16;
    assert !ReadAlike(deviceCode, r, ReadAt(r, 0));
  }

  /** At its plainest: a code typed with a pipe after it, which reading drops, has the key of a uid
      with a pipe before it. The device is there, and only one of the two requests finds it. */
  lemma TypedPipeIsConfused(deviceCode: string -> Option<string>, tenant: TenantId)
    requires deviceCode("K7Q2M9XD|") == Some("K7Q2M9XD")
    ensures var r, s := RouteRequest(None, Some("K7Q2M9XD|"), None), RouteRequest(Some("|K7Q2M9XD"), None, None);
            var devices := OwnDeviceOnly(deviceCode, tenant, "K7Q2M9XD", None);
            && RouteKey(r) == RouteKey(s) && IsOnRecord(devices, deviceCode)
            && Admits(Validated, r) && Admits(Validated, s)
            && Resolve(devices, tenant, r) == Resolved(Some(0), None)
            && Resolve(devices, tenant, s) == Refused(GATEWAY_NOT_FOUND)
  {
  }
}
