/** Document security (`pyword/pyword/features/security.py`): editing
    protection with an optional password, a document password, digital
    signatures and information rights management (IRM) permissions.

    PBKDF2-HMAC-SHA256 (section 5.2 of RFC 8018) and SHA-256 (FIPS 180-4)
    are replaced by injective stand-ins that keep their inputs visible;
    salts, uuid4 ids and the current time are parameters. Times are ISO
    8601 strings of one fixed format, so their string order is their time
    order. */
module Security {
  import opened Common
  import opened Json

  /** A computation that either returns, or raises (a TypeError or
      ValueError the source does not catch). */
  datatype Outcome = Returned(value: bool) | Raised

  // ---------------------------------------------------------------------
  // Enumerations

  datatype ProtectionType = NoProtection | ReadOnly | CommentsOnly | TrackedChangesOnly | FormsOnly | NoFormatting

  function ProtectionValue(t: ProtectionType): string
  {
    match t
    case NoProtection => "none"
    case ReadOnly => "read_only"
    case CommentsOnly => "comments"
    case TrackedChangesOnly => "tracked_changes"
    case FormsOnly => "forms"
    case NoFormatting => "no_formatting"
  }

  /** `ProtectionType(value)`: `None` where the enum raises ValueError. */
  function ProtectionFromValue(v: string): (r: Option<ProtectionType>)
    ensures r.Some? ==> ProtectionValue(r.value) == v
  {
    if v == "none" then Some(NoProtection)
    else if v == "read_only" then Some(ReadOnly)
    else if v == "comments" then Some(CommentsOnly)
    else if v == "tracked_changes" then Some(TrackedChangesOnly)
    else if v == "forms" then Some(FormsOnly)
    else if v == "no_formatting" then Some(NoFormatting)
    else None
  }

  lemma ProtectionValueRoundTrip(t: ProtectionType)
    ensures ProtectionFromValue(ProtectionValue(t)) == Some(t)
  {
  }

  datatype PermissionLevel = NoPermission | View | Edit | Print | Copy | FullControl

  function PermissionValue(p: PermissionLevel): string
  {
    match p
    case NoPermission => "none"
    case View => "view"
    case Edit => "edit"
    case Print => "print"
    case Copy => "copy"
    case FullControl => "full_control"
  }

  function PermissionFromValue(v: string): (r: Option<PermissionLevel>)
    ensures r.Some? ==> PermissionValue(r.value) == v
  {
    if v == "none" then Some(NoPermission)
    else if v == "view" then Some(View)
    else if v == "edit" then Some(Edit)
    else if v == "print" then Some(Print)
    else if v == "copy" then Some(Copy)
    else if v == "full_control" then Some(FullControl)
    else None
  }

  lemma PermissionValueRoundTrip(p: PermissionLevel)
    ensures PermissionFromValue(PermissionValue(p)) == Some(p)
  {
  }

  // ---------------------------------------------------------------------
  // Bytes, hex and the hash stand-ins

  type Byte = x: int | 0 <= x < 256

  function HexDigit(d: int): (c: char)
    requires 0 <= d < 16
  {
    if d < 10 then ('0' as int + d) as char else ('a' as int + d - 10) as char
  }

  /** The value of a hex digit, either case, as `bytes.fromhex` reads it. */
  function HexValue(c: char): (r: Option<int>)
    ensures r.Some? ==> 0 <= r.value < 16
  {
    if '0' <= c <= '9' then Some(c as int - '0' as int)
    else if 'a' <= c <= 'f' then Some(c as int - 'a' as int + 10)
    else if 'A' <= c <= 'F' then Some(c as int - 'A' as int + 10)
    else None
  }

  lemma HexDigitValue(d: int)
    requires 0 <= d < 16
    ensures HexValue(HexDigit(d)) == Some(d)
  {
  }

  /** `bytes.hex()`: two lower-case digits per byte. */
  function Hex(bs: seq<Byte>): (s: string)
    ensures |s| == 2 * |bs|
  {
    if bs == [] then [] else [HexDigit(bs[0] / 16), HexDigit(bs[0] % 16)] + Hex(bs[1..])
  }

  /** The number of ASCII whitespace characters in `s`. */
  function SpaceCount(s: string): (n: nat)
    ensures n <= |s|
  {
    if s == [] then 0 else (if IsSpace(s[0]) then 1 else 0) + SpaceCount(s[1..])
  }

  /** `bytes.fromhex(s)`: ASCII whitespace before a pair of digits is
      skipped, and each pair gives one byte. `None` where it raises
      ValueError: a lone digit, a character that is no hex digit, or
      whitespace between the two digits of a pair. */
  function FromHex(s: string): (r: Option<seq<Byte>>)
    ensures r.Some? ==> 2 * |r.value| + SpaceCount(s) == |s|
    decreases |s|
  {
    if s == [] then Some([])
    else if IsSpace(s[0]) then FromHex(s[1..])
    else if |s| == 1 then None
    else match (HexValue(s[0]), HexValue(s[1]), FromHex(s[2..]))
      case (Some(h), Some(l), Some(rest)) => Some([(16 * h + l) as Byte] + rest)
      case _ => None
  }

  /** Whitespace between the digit pairs is read past, as `fromhex`
      does, while whitespace inside a pair is refused. */
  lemma FromHexWhitespace()
    ensures FromHex("00 11") == Some([0, 17])
    ensures FromHex(" 0a\n") == Some([10])
    ensures FromHex("0 0") == None
  {
    HexDigitValue(0);
    HexDigitValue(1);
    HexDigitValue(10);
    var a := "11";
    assert a[2..] == [] && a[0] == a[1] == HexDigit(1);
    assert FromHex(a) == Some([17 as Byte] + []);
    assert [17 as Byte] + [] == [17];
    var b := " 11";
    assert b[1..] == a;
    var c := "00 11";
    assert c[2..] == b && c[0] == c[1] == HexDigit(0);
    assert FromHex(c) == Some([0 as Byte] + [17]);
    assert [0 as Byte] + [17] == [0, 17];
    var d := "0a\n";
    assert d[2..] == "\n" && d[0] == HexDigit(0) && d[1] == HexDigit(10);
    assert "\n"[1..] == [];
    assert FromHex(d) == Some([10 as Byte] + []);
    assert [10 as Byte] + [] == [10];
    assert " 0a\n"[1..] == d;
  }

  lemma {:induction false} HexRoundTrip(bs: seq<Byte>)
    ensures FromHex(Hex(bs)) == Some(bs)
  {
    if bs != [] {
      var s := Hex(bs);
      HexDigitValue(bs[0] / 16);
      HexDigitValue(bs[0] % 16);
      assert s[2..] == Hex(bs[1..]);
      HexRoundTrip(bs[1..]);
      assert bs == [bs[0]] + bs[1..];
    }
  }

  /** Stand-in for `pbkdf2_hmac('sha256', password, salt, 100000).hex()`. */
  function HashPassword(password: string, salt: seq<Byte>): string
  {
    "pbkdf2-sha256:" + Hex(salt) + ":" + password
  }

  /** Under one salt, the stand-in tells passwords apart, as the real
      function does with overwhelming probability. */
  lemma HashPasswordInjective(p: string, q: string, salt: seq<Byte>)
    requires HashPassword(p, salt) == HashPassword(q, salt)
    ensures p == q
  {
    var pre := "pbkdf2-sha256:" + Hex(salt) + ":";
    assert HashPassword(p, salt) == pre + p;
    assert HashPassword(q, salt) == pre + q;
    assert (pre + p)[|pre|..] == p;
    assert (pre + q)[|pre|..] == q;
  }

  /** Stand-in for `sha256(data).hexdigest()`. */
  function Sha256(data: string): string
  {
    "sha256:" + data
  }

  /** `_verify_password`: recompute and compare. A missing salt makes
      `pbkdf2_hmac` raise TypeError. */
  function VerifyHash(password: string, hash: Option<string>, salt: Option<seq<Byte>>): (r: Outcome)
    ensures salt.None? <==> r.Raised?
  {
    if salt.None? then Raised else Returned(hash == Some(HashPassword(password, salt.value)))
  }

  /** A password verifies against its own hash and salt, and no other
      password does. */
  lemma VerifyOwnHash(p: string, q: string, salt: seq<Byte>)
    ensures VerifyHash(q, Some(HashPassword(p, salt)), Some(salt)) == Returned(p == q)
  {
    if HashPassword(q, salt) == HashPassword(p, salt) {
      HashPasswordInjective(q, p, salt);
    }
  }

  // ---------------------------------------------------------------------
  // Digital signatures

  datatype Signature = Signature(id: string, signerName: string, certificateId: string, timestamp: string,
                                 reason: string, location: string, isValid: bool, signatureData: string)

  /** `_generate_signature`: the hash of signer, certificate and time. */
  function GenerateSignature(s: Signature): string
  {
    Sha256(s.signerName + s.certificateId + s.timestamp)
  }

  /** `DigitalSignature(...)`: an empty or missing certificate id is
      replaced by a fresh one, a missing time by `now`; a new signature is
      valid and carries its own generated data. */
  function NewSignature(id: string, signerName: string, certificateId: Option<string>, timestamp: Option<string>,
                        reason: string, location: string, freshCertificate: string, now: string): (s: Signature)
    ensures s.id == id && s.signerName == signerName && s.reason == reason && s.location == location
    ensures s.certificateId == if Truthy(certificateId) then certificateId.value else freshCertificate
    ensures s.timestamp == if timestamp.Some? then timestamp.value else now
    ensures s.isValid && s.signatureData == GenerateSignature(s)
  {
    var s := Signature(id, signerName, if Truthy(certificateId) then certificateId.value else freshCertificate,
                       if timestamp.Some? then timestamp.value else now, reason, location, true, "");
    s.(signatureData := GenerateSignature(s))
  }

  function SignatureToDict(s: Signature): (d: Dict)
    ensures d.Keys == {"id", "signer_name", "certificate_id", "timestamp", "reason", "location", "is_valid", "signature_data"}
  {
    map["id" := Str(s.id), "signer_name" := Str(s.signerName), "certificate_id" := Str(s.certificateId),
        "timestamp" := Str(s.timestamp), "reason" := Str(s.reason), "location" := Str(s.location),
        "is_valid" := Bool(s.isValid), "signature_data" := Str(s.signatureData)]
  }

  /** `DigitalSignature.from_dict`: signer, certificate, time, id and data
      are required. The constructor runs first, so a stored empty
      certificate id is replaced by `freshCertificate`. */
  function SignatureFromDict(d: Dict, freshId: string, freshCertificate: string): (r: Option<Signature>)
    ensures r.Some? <==> (forall k :: k in ["signer_name", "certificate_id", "timestamp", "id", "signature_data"] ==> k in d)
    ensures r.Some? && "is_valid" !in d ==> r.value.isValid
    ensures r.Some? && "reason" !in d ==> r.value.reason == ""
  {
    if !(forall k :: k in ["signer_name", "certificate_id", "timestamp", "id", "signature_data"] ==> k in d) then None
    else
      var s := NewSignature(freshId, GetStr(d, "signer_name", ""), GetOptStr(d, "certificate_id"),
                            Some(GetStr(d, "timestamp", "")), GetStr(d, "reason", ""), GetStr(d, "location", ""),
                            freshCertificate, "");
      Some(s.(id := GetStr(d, "id", ""), isValid := GetBool(d, "is_valid", true),
              signatureData := GetStr(d, "signature_data", "")))
  }

  /** Every signature the constructor makes has a non-empty certificate
      id, and such a signature survives `to_dict`/`from_dict`. */
  lemma SignatureRoundTrip(s: Signature, freshId: string, freshCertificate: string)
    requires s.certificateId != ""
    ensures SignatureFromDict(SignatureToDict(s), freshId, freshCertificate) == Some(s)
  {
    var d := SignatureToDict(s);
    assert forall k :: k in ["signer_name", "certificate_id", "timestamp", "id", "signature_data"] ==> k in d;
  }

  predicate HasId(sigId: string, s: Signature) { s.id == sigId }

  /** `k` is the index of the first signature with the id. */
  predicate FirstWithId(sigs: seq<Signature>, sigId: string, k: int)
  {
    0 <= k < |sigs| && sigs[k].id == sigId && forall j :: 0 <= j < k ==> sigs[j].id != sigId
  }

  /** `verify_signature`: False for an unknown id; otherwise the stored
      data of the first signature with that id must match the recomputed
      hash. */
  function VerifySignature(sigs: seq<Signature>, sigId: string): (ok: bool)
    ensures (forall s :: s in sigs ==> s.id != sigId) ==> !ok
    ensures ok <==> exists k :: FirstWithId(sigs, sigId, k) && sigs[k].signatureData == GenerateSignature(sigs[k])
  {
    var p := (s: Signature) => HasId(sigId, s);
    match FirstIndex(sigs, p)
    case None =>
      assert forall k :: !FirstWithId(sigs, sigId, k) by {
        forall k | 0 <= k < |sigs| ensures !HasId(sigId, sigs[k]) { assert !p(sigs[k]); }
      }
      false
    case Some(k) =>
      assert forall k' :: FirstWithId(sigs, sigId, k') ==> k' == k by {
        forall k' | FirstWithId(sigs, sigId, k') ensures k' == k {
          FirstIndexAt(sigs, p, k');
        }
      }
      sigs[k].signatureData == GenerateSignature(sigs[k])
  }

  /** A signature made by the constructor verifies, until its signer,
      certificate, time or data are altered. */
  lemma NewSignatureVerifies(sigs: seq<Signature>, id: string, signerName: string, certificateId: Option<string>,
                             timestamp: Option<string>, reason: string, location: string, freshCertificate: string, now: string)
    requires forall s :: s in sigs ==> s.id != id
    ensures VerifySignature(sigs + [NewSignature(id, signerName, certificateId, timestamp, reason, location, freshCertificate, now)], id)
  {
    var n := NewSignature(id, signerName, certificateId, timestamp, reason, location, freshCertificate, now);
    var all := sigs + [n];
    forall j | 0 <= j < |sigs| ensures !HasId(id, all[j]) {
      assert all[j] == sigs[j];
    }
    FirstIndexAt(all, (s: Signature) => HasId(id, s), |sigs|);
  }

  // ---------------------------------------------------------------------
  // IRM permissions

  datatype UserPermission = UserPermission(userId: string, userName: string, permissions: seq<PermissionLevel>,
                                           expiryDate: Option<string>, grantedBy: Option<string>, grantedDate: string)

  /** `has_permission` at time `now`: nothing after the expiry date;
      otherwise the permission itself or full control must be listed. */
  function HasPermission(u: UserPermission, p: PermissionLevel, now: string): (ok: bool)
    ensures u.expiryDate.Some? && !StrLe(now, u.expiryDate.value) ==> !ok
    ensures (u.expiryDate.None? || StrLe(now, u.expiryDate.value)) ==>
      (ok <==> p in u.permissions || FullControl in u.permissions)
  {
    if u.expiryDate.Some? && !StrLe(now, u.expiryDate.value) then false
    else p in u.permissions || FullControl in u.permissions
  }

  /** Full control implies every permission while it has not expired. */
  lemma FullControlImpliesAll(u: UserPermission, p: PermissionLevel, now: string)
    requires FullControl in u.permissions
    ensures HasPermission(u, p, now) == HasPermission(u, FullControl, now)
  {
  }

  function PermissionValues(ps: seq<PermissionLevel>): (v: Value)
    ensures v.Arr? && |v.items| == |ps|
  {
    Arr(seq(|ps|, i requires 0 <= i < |ps| => Str(PermissionValue(ps[i]))))
  }

  /** `[PermissionLevel(p) for p in ...]`: `None` if an item is not a
      permission value. */
  function PermissionsFrom(items: seq<Value>): (r: Option<seq<PermissionLevel>>)
    ensures r.Some? ==> |r.value| == |items|
  {
    if items == [] then Some([])
    else if !items[0].Str? then None
    else match (PermissionFromValue(items[0].s), PermissionsFrom(items[1..]))
      case (Some(p), Some(rest)) => Some([p] + rest)
      case _ => None
  }

  lemma {:induction false} PermissionsRoundTrip(ps: seq<PermissionLevel>)
    ensures PermissionsFrom(PermissionValues(ps).items) == Some(ps)
  {
    if ps != [] {
      assert PermissionValues(ps).items[1..] == PermissionValues(ps[1..]).items;
      PermissionValueRoundTrip(ps[0]);
      PermissionsRoundTrip(ps[1..]);
      assert ps == [ps[0]] + ps[1..];
    }
  }

  function UserPermissionToDict(u: UserPermission): (d: Dict)
    ensures d.Keys == {"user_id", "user_name", "permissions", "expiry_date", "granted_by", "granted_date"}
  {
    map["user_id" := Str(u.userId), "user_name" := Str(u.userName), "permissions" := PermissionValues(u.permissions),
        "expiry_date" := OptStrValue(u.expiryDate), "granted_by" := OptStrValue(u.grantedBy),
        "granted_date" := Str(u.grantedDate)]
  }

  /** `UserPermission.from_dict`: user id and name, the permission list
      and the grant date are required; an empty expiry reads as none. */
  function UserPermissionFromDict(d: Dict): (r: Option<UserPermission>)
    ensures r.Some? ==> "user_id" in d && "user_name" in d && "permissions" in d && "granted_date" in d
    ensures r.Some? && "expiry_date" !in d ==> r.value.expiryDate == None
    ensures r.Some? && "granted_by" !in d ==> r.value.grantedBy == None
  {
    if "user_id" !in d || "user_name" !in d || "permissions" !in d || "granted_date" !in d then None
    else if !d["permissions"].Arr? then None
    else match PermissionsFrom(d["permissions"].items)
      case None => None
      case Some(ps) =>
        var expiry := GetOptStr(d, "expiry_date");
        Some(UserPermission(GetStr(d, "user_id", ""), GetStr(d, "user_name", ""), ps,
                            if Truthy(expiry) then expiry else None,
                            GetOptStr(d, "granted_by"), GetStr(d, "granted_date", "")))
  }

  /** A permission whose expiry date, if any, is a real date survives the
      round trip. */
  lemma UserPermissionRoundTrip(u: UserPermission)
    requires u.expiryDate.Some? ==> u.expiryDate.value != ""
    ensures UserPermissionFromDict(UserPermissionToDict(u)) == Some(u)
  {
    PermissionsRoundTrip(u.permissions);
  }

  predicate ForUser(userId: string, u: UserPermission) { u.userId == userId }

  function WithoutUser(ps: seq<UserPermission>, userId: string): (r: seq<UserPermission>)
    ensures forall u :: u in r <==> u in ps && u.userId != userId
  {
    Filter(ps, (u: UserPermission) => !ForUser(userId, u))
  }

  /** `next(p for p in irm_permissions if p.user_id == user_id)`. */
  function UserPermissionOf(ps: seq<UserPermission>, userId: string): (r: Option<UserPermission>)
    ensures r.Some? ==> r.value in ps && r.value.userId == userId
    ensures r.None? <==> forall u :: u in ps ==> u.userId != userId
  {
    match FirstIndex(ps, (u: UserPermission) => ForUser(userId, u))
    case None => None
    case Some(k) => Some(ps[k])
  }

  /** At most one entry per user. */
  predicate OnePerUser(ps: seq<UserPermission>)
  {
    forall i, j :: 0 <= i < j < |ps| ==> ps[i].userId != ps[j].userId
  }

  lemma WithoutUserKeepsOne(ps: seq<UserPermission>, userId: string)
    requires OnePerUser(ps)
    ensures OnePerUser(WithoutUser(ps, userId))
  {
    SubsequenceOnePerUser(ps, (u: UserPermission) => !ForUser(userId, u));
  }

  lemma {:induction false} SubsequenceOnePerUser(ps: seq<UserPermission>, p: UserPermission -> bool)
    requires OnePerUser(ps)
    ensures OnePerUser(Filter(ps, p))
  {
    if ps != [] {
      assert OnePerUser(ps[1..]) by {
        forall i, j | 0 <= i < j < |ps[1..]| ensures ps[1..][i].userId != ps[1..][j].userId {
          assert ps[1..][i] == ps[i + 1] && ps[1..][j] == ps[j + 1];
        }
      }
      SubsequenceOnePerUser(ps[1..], p);
      var rest := Filter(ps[1..], p);
      if p(ps[0]) {
        var r := [ps[0]] + rest;
        forall i, j | 0 <= i < j < |r| ensures r[i].userId != r[j].userId {
          if i > 0 {
            assert r[i] == rest[i - 1] && r[j] == rest[j - 1];
          } else {
            assert r[j] == rest[j - 1] && r[j] in ps[1..];
            var k :| 0 <= k < |ps[1..]| && ps[1..][k] == r[j];
            assert ps[k + 1] == r[j];
          }
        }
      }
    }
  }

  // ---------------------------------------------------------------------
  // The manager

  /** `get_security_info`. */
  datatype SecurityInfo = SecurityInfo(protected: bool, protectionType: string, passwordProtected: bool,
                                       signatureCount: nat, validSignatureCount: nat, irmEnabled: bool,
                                       irmUserCount: nat, encrypted: bool)

  /** Every field `to_dict` writes. */
  datatype SecurityState = SecurityState(
    protectionType: ProtectionType, protectionPasswordHash: Option<string>, protectionSalt: Option<seq<Byte>>,
    isPasswordProtected: bool, passwordHash: Option<string>, passwordSalt: Option<seq<Byte>>, passwordHint: string,
    signatures: seq<Signature>, irmEnabled: bool, irmPermissions: seq<UserPermission>, irmOwner: Option<string>,
    irmPolicyName: string, irmPolicyDescription: string, encryptionAlgorithm: string, isEncrypted: bool)

  function SaltValue(salt: Option<seq<Byte>>): (v: Value)
  {
    if salt.Some? && salt.value != [] then Str(Hex(salt.value)) else Null
  }

  /** `bytes.fromhex(h) if h else None`: `Some(None)` for no salt, `None`
      where `fromhex` raises. */
  function SaltFrom(d: Dict, k: string): (r: Option<Option<seq<Byte>>>)
    ensures k !in d ==> r == Some(None)
    ensures r == Some(None) <==> !Truthy(GetOptStr(d, k))
    ensures r.None? <==> Truthy(GetOptStr(d, k)) && FromHex(GetOptStr(d, k).value).None?
    ensures r.Some? && r.value.Some? ==> FromHex(GetOptStr(d, k).value) == r.value
  {
    var h := GetOptStr(d, k);
    if !Truthy(h) then Some(None)
    else match FromHex(h.value)
      case None => None
      case Some(bs) => Some(Some(bs))
  }

  function SignaturesValue(sigs: seq<Signature>): (v: Value)
    ensures v.Arr? && |v.items| == |sigs|
  {
    Arr(seq(|sigs|, i requires 0 <= i < |sigs| => Obj(SignatureToDict(sigs[i]))))
  }

  function SignaturesFrom(items: seq<Value>, freshId: string, freshCertificate: string): (r: Option<seq<Signature>>)
    ensures r.Some? ==> |r.value| == |items|
  {
    if items == [] then Some([])
    else if !items[0].Obj? then None
    else match (SignatureFromDict(items[0].fields, freshId, freshCertificate), SignaturesFrom(items[1..], freshId, freshCertificate))
      case (Some(s), Some(rest)) => Some([s] + rest)
      case _ => None
  }

  lemma {:induction false} SignaturesRoundTrip(sigs: seq<Signature>, freshId: string, freshCertificate: string)
    requires forall s :: s in sigs ==> s.certificateId != ""
    ensures SignaturesFrom(SignaturesValue(sigs).items, freshId, freshCertificate) == Some(sigs)
  {
    if sigs != [] {
      var items := SignaturesValue(sigs).items;
      SignaturesValueCons(sigs);
      SignatureRoundTrip(sigs[0], freshId, freshCertificate);
      SignaturesRoundTrip(sigs[1..], freshId, freshCertificate);
      SignaturesFromCons(items, freshId, freshCertificate, sigs);
    }
  }

  lemma SignaturesValueCons(sigs: seq<Signature>)
    requires sigs != []
    ensures SignaturesValue(sigs).items[0] == Obj(SignatureToDict(sigs[0]))
    ensures SignaturesValue(sigs).items[1..] == SignaturesValue(sigs[1..]).items
  {
    assert SignaturesValue(sigs).items[1..] == SignaturesValue(sigs[1..]).items;
  }

  lemma SignaturesFromCons(items: seq<Value>, freshId: string, freshCertificate: string, sigs: seq<Signature>)
    requires items != [] && items[0].Obj? && sigs != []
    requires SignatureFromDict(items[0].fields, freshId, freshCertificate) == Some(sigs[0])
    requires SignaturesFrom(items[1..], freshId, freshCertificate) == Some(sigs[1..])
    ensures SignaturesFrom(items, freshId, freshCertificate) == Some(sigs)
  {
    assert sigs == [sigs[0]] + sigs[1..];
  }

  function PermissionsValue(ps: seq<UserPermission>): (v: Value)
    ensures v.Arr? && |v.items| == |ps|
  {
    Arr(seq(|ps|, i requires 0 <= i < |ps| => Obj(UserPermissionToDict(ps[i]))))
  }

  function UserPermissionsFrom(items: seq<Value>): (r: Option<seq<UserPermission>>)
    ensures r.Some? ==> |r.value| == |items|
  {
    if items == [] then Some([])
    else if !items[0].Obj? then None
    else match (UserPermissionFromDict(items[0].fields), UserPermissionsFrom(items[1..]))
      case (Some(u), Some(rest)) => Some([u] + rest)
      case _ => None
  }

  lemma {:induction false} UserPermissionsRoundTrip(ps: seq<UserPermission>)
    requires forall u :: u in ps ==> (u.expiryDate.Some? ==> u.expiryDate.value != "")
    ensures UserPermissionsFrom(PermissionsValue(ps).items) == Some(ps)
  {
    if ps != [] {
      var items := PermissionsValue(ps).items;
      PermissionsValueCons(ps);
      UserPermissionRoundTrip(ps[0]);
      UserPermissionsRoundTrip(ps[1..]);
      UserPermissionsFromCons(items, ps);
    }
  }

  lemma PermissionsValueCons(ps: seq<UserPermission>)
    requires ps != []
    ensures PermissionsValue(ps).items[0] == Obj(UserPermissionToDict(ps[0]))
    ensures PermissionsValue(ps).items[1..] == PermissionsValue(ps[1..]).items
  {
    assert PermissionsValue(ps).items[1..] == PermissionsValue(ps[1..]).items;
  }

  lemma UserPermissionsFromCons(items: seq<Value>, ps: seq<UserPermission>)
    requires items != [] && items[0].Obj? && ps != []
    requires UserPermissionFromDict(items[0].fields) == Some(ps[0])
    requires UserPermissionsFrom(items[1..]) == Some(ps[1..])
    ensures UserPermissionsFrom(items) == Some(ps)
  {
    assert ps == [ps[0]] + ps[1..];
  }

  function StateToDict(s: SecurityState): Dict
  {
    map["protection_type" := Str(ProtectionValue(s.protectionType)),
        "protection_password_hash" := OptStrValue(s.protectionPasswordHash),
        "protection_salt" := SaltValue(s.protectionSalt),
        "is_password_protected" := Bool(s.isPasswordProtected),
        "password_hash" := OptStrValue(s.passwordHash),
        "password_salt" := SaltValue(s.passwordSalt),
        "password_hint" := Str(s.passwordHint),
        "signatures" := SignaturesValue(s.signatures),
        "irm_enabled" := Bool(s.irmEnabled),
        "irm_permissions" := PermissionsValue(s.irmPermissions),
        "irm_owner" := OptStrValue(s.irmOwner),
        "irm_policy_name" := Str(s.irmPolicyName),
        "irm_policy_description" := Str(s.irmPolicyDescription),
        "encryption_algorithm" := Str(s.encryptionAlgorithm),
        "is_encrypted" := Bool(s.isEncrypted)]
  }

  /** `SecurityManager.from_dict`, as the state it loads; `None` where one
      of its conversions raises. Missing keys take the constructor's
      defaults. */
  function StateFromDict(d: Dict, freshId: string, freshCertificate: string): (r: Option<SecurityState>)
    ensures r.Some? && "protection_type" !in d ==> r.value.protectionType == NoProtection
    ensures r.Some? && "is_password_protected" !in d ==> !r.value.isPasswordProtected
    ensures r.Some? && "signatures" !in d ==> r.value.signatures == []
    ensures r.Some? && "irm_permissions" !in d ==> r.value.irmPermissions == []
    ensures r.Some? && "encryption_algorithm" !in d ==> r.value.encryptionAlgorithm == "AES-256"
  {
    match (ProtectionFromValue(GetStr(d, "protection_type", "none")), SaltFrom(d, "protection_salt"),
           SaltFrom(d, "password_salt"),
           SignaturesFrom(GetArr(d, "signatures"), freshId, freshCertificate),
           UserPermissionsFrom(GetArr(d, "irm_permissions")))
    case (Some(t), Some(ps), Some(ws), Some(sigs), Some(perms)) =>
      Some(SecurityState(t, GetOptStr(d, "protection_password_hash"), ps,
                         GetBool(d, "is_password_protected", false), GetOptStr(d, "password_hash"), ws,
                         GetStr(d, "password_hint", ""), sigs, GetBool(d, "irm_enabled", false), perms,
                         GetOptStr(d, "irm_owner"), GetStr(d, "irm_policy_name", ""),
                         GetStr(d, "irm_policy_description", ""), GetStr(d, "encryption_algorithm", "AES-256"),
                         GetBool(d, "is_encrypted", false)))
    case _ => None
  }

  /** What the manager's own operations can produce: salts are 32 random
      bytes, certificate ids and expiry dates are non-empty. */
  predicate Storable(s: SecurityState)
  {
    && (s.protectionSalt.Some? ==> s.protectionSalt.value != [])
    && (s.passwordSalt.Some? ==> s.passwordSalt.value != [])
    && (forall g :: g in s.signatures ==> g.certificateId != "")
    && (forall u :: u in s.irmPermissions ==> (u.expiryDate.Some? ==> u.expiryDate.value != ""))
  }

  lemma SaltRoundTrip(d: Dict, k: string, salt: Option<seq<Byte>>)
    requires k in d && d[k] == SaltValue(salt)
    requires salt.Some? ==> salt.value != []
    ensures SaltFrom(d, k) == Some(salt)
  {
    if salt.Some? {
      HexRoundTrip(salt.value);
    }
  }

  // The serialised state read back a few keys at a time.

  lemma LookupsA(s: SecurityState)
    ensures var d := StateToDict(s);
      GetStr(d, "protection_type", "none") == ProtectionValue(s.protectionType) &&
      GetOptStr(d, "protection_password_hash") == s.protectionPasswordHash &&
      d["protection_salt"] == SaltValue(s.protectionSalt)
  {
  }

  lemma LookupsB(s: SecurityState)
    ensures var d := StateToDict(s);
      GetBool(d, "is_password_protected", false) == s.isPasswordProtected &&
      GetOptStr(d, "password_hash") == s.passwordHash &&
      d["password_salt"] == SaltValue(s.passwordSalt) &&
      GetStr(d, "password_hint", "") == s.passwordHint
  {
  }

  lemma LookupsC(s: SecurityState)
    ensures var d := StateToDict(s);
      GetArr(d, "signatures") == SignaturesValue(s.signatures).items &&
      GetBool(d, "irm_enabled", false) == s.irmEnabled &&
      GetArr(d, "irm_permissions") == PermissionsValue(s.irmPermissions).items &&
      GetOptStr(d, "irm_owner") == s.irmOwner
  {
  }

  lemma LookupsD(s: SecurityState)
    ensures var d := StateToDict(s);
      GetStr(d, "irm_policy_name", "") == s.irmPolicyName &&
      GetStr(d, "irm_policy_description", "") == s.irmPolicyDescription &&
      GetStr(d, "encryption_algorithm", "AES-256") == s.encryptionAlgorithm &&
      GetBool(d, "is_encrypted", false) == s.isEncrypted
  {
  }

  /** `from_dict(to_dict())` restores every setting. */
  lemma StateRoundTrip(s: SecurityState, freshId: string, freshCertificate: string)
    requires Storable(s)
    ensures StateFromDict(StateToDict(s), freshId, freshCertificate) == Some(s)
  {
    var d := StateToDict(s);
    LookupsA(s);
    LookupsB(s);
    LookupsC(s);
    LookupsD(s);
    ProtectionValueRoundTrip(s.protectionType);
    SaltRoundTrip(d, "protection_salt", s.protectionSalt);
    SaltRoundTrip(d, "password_salt", s.passwordSalt);
    SignaturesRoundTrip(s.signatures, freshId, freshCertificate);
    UserPermissionsRoundTrip(s.irmPermissions);
  }

  class SecurityManager {
    var protectionType: ProtectionType
    var protectionPasswordHash: Option<string>
    var protectionSalt: Option<seq<Byte>>
    var isPasswordProtected: bool
    var passwordHash: Option<string>
    var passwordSalt: Option<seq<Byte>>
    var passwordHint: string
    var signatures: seq<Signature>
    var irmEnabled: bool
    var irmPermissions: seq<UserPermission>
    var irmOwner: Option<string>
    var irmPolicyName: string
    var irmPolicyDescription: string
    var encryptionAlgorithm: string
    var isEncrypted: bool

    constructor ()
      ensures State() == SecurityState(NoProtection, None, None, false, None, None, "", [], false, [], None,
                                       "", "", "AES-256", false)
    {
      protectionType := NoProtection;
      protectionPasswordHash := None;
      protectionSalt := None;
      isPasswordProtected := false;
      passwordHash := None;
      passwordSalt := None;
      passwordHint := "";
      signatures := [];
      irmEnabled := false;
      irmPermissions := [];
      irmOwner := None;
      irmPolicyName := "";
      irmPolicyDescription := "";
      encryptionAlgorithm := "AES-256";
      isEncrypted := false;
    }

    function State(): SecurityState
      reads this
    {
      SecurityState(protectionType, protectionPasswordHash, protectionSalt, isPasswordProtected, passwordHash,
                    passwordSalt, passwordHint, signatures, irmEnabled, irmPermissions, irmOwner, irmPolicyName,
                    irmPolicyDescription, encryptionAlgorithm, isEncrypted)
    }

    /** `protect_document`: the type is always set; a non-empty password
        stores a new salt and its hash, otherwise an earlier hash stays. */
    method ProtectDocument(t: ProtectionType, password: Option<string>, salt: seq<Byte>) returns (ok: bool)
      modifies this
      ensures ok && State() == old(State()).(protectionType := t,
        protectionSalt := if Truthy(password) then Some(salt) else old(protectionSalt),
        protectionPasswordHash := if Truthy(password) then Some(HashPassword(password.value, salt)) else old(protectionPasswordHash))
    {
      protectionType := t;
      if Truthy(password) {
        protectionSalt := Some(salt);
        protectionPasswordHash := Some(HashPassword(password.value, salt));
      }
      ok := true;
    }

    /** `unprotect_document`: with a protection hash set, a missing or
        wrong password gives False and changes nothing; otherwise the
        protection and its hash and salt are cleared. A hash without a
        salt makes the check raise. */
    method UnprotectDocument(password: Option<string>) returns (r: Outcome)
      modifies this
      ensures Truthy(old(protectionPasswordHash)) && !Truthy(password) ==> r == Returned(false) && State() == old(State())
      ensures Truthy(old(protectionPasswordHash)) && Truthy(password) ==>
        r == (match VerifyHash(password.value, old(protectionPasswordHash), old(protectionSalt))
              case Returned(true) => Returned(true)
              case Returned(false) => Returned(false)
              case Raised => Raised)
      ensures r != Returned(true) ==> State() == old(State())
      ensures r == Returned(true) ==>
        State() == old(State()).(protectionType := NoProtection, protectionPasswordHash := None, protectionSalt := None)
      ensures !Truthy(old(protectionPasswordHash)) ==> r == Returned(true)
    {
      if Truthy(protectionPasswordHash) {
        if !Truthy(password) {
          return Returned(false);
        }
        var v := VerifyHash(password.value, protectionPasswordHash, protectionSalt);
        if v.Raised? {
          return Raised;
        }
        if !v.value {
          return Returned(false);
        }
      }
      protectionType := NoProtection;
      protectionPasswordHash := None;
      protectionSalt := None;
      r := Returned(true);
    }

    /** `set_password`: the empty password is refused; otherwise a new salt,
        its hash and the hint are stored and the document is protected. */
    method SetPassword(password: string, hint: string, salt: seq<Byte>) returns (ok: bool)
      modifies this
      ensures ok <==> password != ""
      ensures !ok ==> State() == old(State())
      ensures ok ==> State() == old(State()).(passwordSalt := Some(salt),
        passwordHash := Some(HashPassword(password, salt)), passwordHint := hint, isPasswordProtected := true)
    {
      if password == "" {
        return false;
      }
      passwordSalt := Some(salt);
      passwordHash := Some(HashPassword(password, salt));
      passwordHint := hint;
      isPasswordProtected := true;
      ok := true;
    }

    /** `verify_password`: always True for an unprotected document. */
    function VerifyPassword(password: string): (r: Outcome)
      reads this
      ensures !isPasswordProtected ==> r == Returned(true)
      ensures isPasswordProtected ==> r == VerifyHash(password, passwordHash, passwordSalt)
    {
      if !isPasswordProtected then Returned(true) else VerifyHash(password, passwordHash, passwordSalt)
    }

    /** `remove_password`: only a password that verifies removes the
        protection, clearing hash, salt and hint. */
    method RemovePassword(password: string) returns (r: Outcome)
      modifies this
      ensures r == VerifyPassword(password)
      ensures r != Returned(true) ==> State() == old(State())
      ensures r == Returned(true) ==>
        State() == old(State()).(passwordHash := None, passwordSalt := None, passwordHint := "", isPasswordProtected := false)
    {
      r := VerifyPassword(password);
      if r == Returned(true) {
        passwordHash := None;
        passwordSalt := None;
        passwordHint := "";
        isPasswordProtected := false;
      }
    }

    /** `add_signature`: a new signature, with a fresh certificate id and
        the current time, goes last. */
    method AddSignature(signerName: string, reason: string, location: string, newId: string,
                        freshCertificate: string, now: string) returns (s: Signature)
      modifies this
      ensures s == NewSignature(newId, signerName, None, None, reason, location, freshCertificate, now)
      ensures State() == old(State()).(signatures := old(signatures) + [s])
    {
      s := NewSignature(newId, signerName, None, None, reason, location, freshCertificate, now);
      signatures := signatures + [s];
    }

    /** `remove_signature`: every signature with the id goes; always True. */
    method RemoveSignature(sigId: string) returns (ok: bool)
      modifies this
      ensures ok
      ensures State() == old(State()).(signatures := Filter(old(signatures), (s: Signature) => !HasId(sigId, s)))
    {
      signatures := Filter(signatures, (s: Signature) => !HasId(sigId, s));
      ok := true;
    }

    /** `invalidate_signatures`: each signature is marked invalid in turn. */
    method InvalidateSignatures()
      modifies this
      ensures |signatures| == |old(signatures)|
      ensures forall i :: 0 <= i < |signatures| ==> signatures[i] == old(signatures)[i].(isValid := false)
      ensures State() == old(State()).(signatures := signatures)
    {
      var i := 0;
      while i < |signatures|
        invariant 0 <= i <= |signatures| && |signatures| == |old(signatures)|
        invariant forall j :: 0 <= j < i ==> signatures[j] == old(signatures)[j].(isValid := false)
        invariant forall j :: i <= j < |signatures| ==> signatures[j] == old(signatures)[j]
        invariant State() == old(State()).(signatures := signatures)
      {
        signatures := signatures[i := signatures[i].(isValid := false)];
        i := i + 1;
      }
    }

    /** `enable_irm`. */
    method EnableIrm(owner: string, policyName: string, policyDescription: string) returns (ok: bool)
      modifies this
      ensures ok
      ensures State() == old(State()).(irmEnabled := true, irmOwner := Some(owner), irmPolicyName := policyName,
                                       irmPolicyDescription := policyDescription)
    {
      irmEnabled := true;
      irmOwner := Some(owner);
      irmPolicyName := policyName;
      irmPolicyDescription := policyDescription;
      ok := true;
    }

    /** `disable_irm`: also clears every permission. */
    method DisableIrm() returns (ok: bool)
      modifies this
      ensures ok
      ensures State() == old(State()).(irmEnabled := false, irmPermissions := [])
    {
      irmEnabled := false;
      irmPermissions := [];
      ok := true;
    }

    /** `grant_permission`: any earlier entry for the user is dropped and
        the new one, granted by the IRM owner, goes last. */
    method GrantPermission(userId: string, userName: string, permissions: seq<PermissionLevel>,
                           expiryDate: Option<string>, now: string) returns (u: UserPermission)
      modifies this
      ensures u == UserPermission(userId, userName, permissions, expiryDate, old(irmOwner), now)
      ensures State() == old(State()).(irmPermissions := WithoutUser(old(irmPermissions), userId) + [u])
    {
      irmPermissions := WithoutUser(irmPermissions, userId);
      u := UserPermission(userId, userName, permissions, expiryDate, irmOwner, now);
      irmPermissions := irmPermissions + [u];
    }

    /** `revoke_permission`: every entry for the user goes; always True. */
    method RevokePermission(userId: string) returns (ok: bool)
      modifies this
      ensures ok
      ensures State() == old(State()).(irmPermissions := WithoutUser(old(irmPermissions), userId))
    {
      irmPermissions := WithoutUser(irmPermissions, userId);
      ok := true;
    }

    /** `check_permission` at time `now`. */
    function CheckPermission(userId: string, p: PermissionLevel, now: string): (ok: bool)
      reads this
      ensures !irmEnabled ==> ok
      ensures irmEnabled && UserPermissionOf(irmPermissions, userId).None? ==> !ok
      ensures irmEnabled && UserPermissionOf(irmPermissions, userId).Some? ==>
        ok == HasPermission(UserPermissionOf(irmPermissions, userId).value, p, now)
    {
      if !irmEnabled then true
      else match UserPermissionOf(irmPermissions, userId)
        case None => false
        case Some(u) => HasPermission(u, p, now)
    }

    /** `get_user_permissions`. */
    function GetUserPermissions(userId: string): (r: Option<UserPermission>)
      reads this
      ensures r == UserPermissionOf(irmPermissions, userId)
    {
      UserPermissionOf(irmPermissions, userId)
    }

    function ToDict(): (d: Dict)
      reads this
      ensures Storable(State()) ==> forall i, c :: StateFromDict(d, i, c) == Some(State())
    {
      forall i, c ensures Storable(State()) ==> StateFromDict(StateToDict(State()), i, c) == Some(State()) {
        if Storable(State()) {
          StateRoundTrip(State(), i, c);
        }
      }
      StateToDict(State())
    }

    /** `from_dict`. When a conversion raises, the model keeps the old
        state (the source has then already assigned the fields before the
        failing one). */
    method FromDict(d: Dict, freshId: string, freshCertificate: string) returns (ok: bool)
      modifies this
      ensures ok <==> StateFromDict(d, freshId, freshCertificate).Some?
      ensures ok ==> State() == StateFromDict(d, freshId, freshCertificate).value
      ensures !ok ==> State() == old(State())
    {
      var st := StateFromDict(d, freshId, freshCertificate);
      if st.None? {
        return false;
      }
      Load(st.value);
      return true;
    }

    /** Every field set from a loaded state. */
    method Load(s: SecurityState)
      modifies this
      ensures State() == s
    {
      LoadProtection(s);
      LoadRights(s);
    }

    /** The protection and password fields set from a loaded state. */
    method LoadProtection(s: SecurityState)
      modifies this`protectionType, this`protectionPasswordHash, this`protectionSalt
      modifies this`isPasswordProtected, this`passwordHash, this`passwordSalt, this`passwordHint
      ensures protectionType == s.protectionType && protectionPasswordHash == s.protectionPasswordHash
      ensures protectionSalt == s.protectionSalt && isPasswordProtected == s.isPasswordProtected
      ensures passwordHash == s.passwordHash && passwordSalt == s.passwordSalt && passwordHint == s.passwordHint
    {
      protectionType := s.protectionType;
      protectionPasswordHash := s.protectionPasswordHash;
      protectionSalt := s.protectionSalt;
      isPasswordProtected := s.isPasswordProtected;
      passwordHash := s.passwordHash;
      passwordSalt := s.passwordSalt;
      passwordHint := s.passwordHint;
    }

    /** The signature, IRM and encryption fields set from a loaded state. */
    method LoadRights(s: SecurityState)
      modifies this`signatures, this`irmEnabled, this`irmPermissions, this`irmOwner
      modifies this`irmPolicyName, this`irmPolicyDescription, this`encryptionAlgorithm, this`isEncrypted
      ensures signatures == s.signatures && irmEnabled == s.irmEnabled && irmPermissions == s.irmPermissions
      ensures irmOwner == s.irmOwner && irmPolicyName == s.irmPolicyName
      ensures irmPolicyDescription == s.irmPolicyDescription && encryptionAlgorithm == s.encryptionAlgorithm
      ensures isEncrypted == s.isEncrypted
    {
      signatures := s.signatures;
      irmEnabled := s.irmEnabled;
      irmPermissions := s.irmPermissions;
      irmOwner := s.irmOwner;
      irmPolicyName := s.irmPolicyName;
      irmPolicyDescription := s.irmPolicyDescription;
      encryptionAlgorithm := s.encryptionAlgorithm;
      isEncrypted := s.isEncrypted;
    }

    /** `get_security_info`. */
    function GetSecurityInfo(): (info: SecurityInfo)
      reads this
      ensures info.protected <==> protectionType != NoProtection
      ensures info.signatureCount == |signatures| && info.irmUserCount == |irmPermissions|
      ensures info.validSignatureCount <= info.signatureCount
      ensures info.validSignatureCount == |Filter(signatures, (s: Signature) => s.isValid)|
    {
      SecurityInfo(protectionType != NoProtection, ProtectionValue(protectionType), isPasswordProtected,
                   |signatures|, |Filter(signatures, (s: Signature) => s.isValid)|, irmEnabled,
                   |irmPermissions|, isEncrypted)
    }
  }

  /** After `grant_permission` the user has exactly one entry, the new
      one, and at most one entry per user is kept. */
  lemma GrantKeepsOnePerUser(ps: seq<UserPermission>, u: UserPermission)
    requires OnePerUser(ps)
    ensures OnePerUser(WithoutUser(ps, u.userId) + [u])
    ensures UserPermissionOf(WithoutUser(ps, u.userId) + [u], u.userId) == Some(u)
  {
    var w := WithoutUser(ps, u.userId);
    WithoutUserKeepsOne(ps, u.userId);
    var r := w + [u];
    forall i, j | 0 <= i < j < |r| ensures r[i].userId != r[j].userId {
      assert r[i] == w[i] && r[i] in w;
      if j < |w| {
        assert r[j] == w[j];
      }
    }
    forall k | 0 <= k < |w| ensures !ForUser(u.userId, r[k]) {
      assert r[k] == w[k] && w[k] in w;
    }
    FirstIndexAt(r, (v: UserPermission) => ForUser(u.userId, v), |w|);
  }

  /** After `revoke_permission` the user has no entry. */
  lemma RevokeRemovesUser(ps: seq<UserPermission>, userId: string)
    ensures UserPermissionOf(WithoutUser(ps, userId), userId).None?
  {
  }

  /** A password set with `set_password` verifies exactly. */
  lemma SetPasswordThenVerify(p: string, q: string, salt: seq<Byte>)
    ensures VerifyHash(q, Some(HashPassword(p, salt)), Some(salt)) == Returned(p == q)
  {
    VerifyOwnHash(p, q, salt);
  }
}
