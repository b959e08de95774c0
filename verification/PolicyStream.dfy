/**
  The length-delimited policy pre-image of scripts/release/candidate_manifest_evidence.py:
  which reports are accepted, and that the hashed byte stream determines the records.
 */
module PolicyStream {
  import opened Wrappers
  import opened TextOrder

  type Byte = b: int | 0 <= b < 256

  const WORD: nat := 0x1_0000_0000_0000_0000
  const CONTRACT_PATH: string := ".github/release/candidate-contract.json"
  const ALGORITHM: string := "sha256-length-delimited-v2"

  /** The text RMUX-RELEASE-POLICY and the two bytes 0 and 2. */
  const POLICY_DOMAIN: seq<Byte> := Ascii("RMUX-RELEASE-POLICY") + [0, 2]

  datatype Record = Record(path: string, mode: string, kind: string, size: int, blobOid: string, sha256: string)

  datatype Report = Report(
    schemaVersion: int,
    algorithm: string,
    sourceSha: string,
    contractPath: string,
    contractMode: string,
    contractType: string,
    contractBlobOid: string,
    policySha256: string,
    records: seq<Record>
  )

  datatype Error = Refused | Overflow

  // ---------------------------------------------------------------------------------
  // Bytes
  // ---------------------------------------------------------------------------------

  predicate IsAscii(s: string) {
    forall i | 0 <= i < |s| :: s[i] as int < 128
  }

  function Ascii(s: string): (bytes: seq<Byte>)
    requires IsAscii(s)
    ensures |bytes| == |s| && forall i | 0 <= i < |s| :: bytes[i] == s[i] as int
  {
    seq(|s|, i requires 0 <= i < |s| => s[i] as int)
  }

  function Power256(k: nat): nat {
    if k == 0 then 1 else 256 * Power256(k - 1)
  }

  /** The `width` bytes of `n`, most significant first. */
  function BigEndian(n: nat, width: nat): (bytes: seq<Byte>)
    requires n < Power256(width)
    ensures |bytes| == width
  {
    if width == 0 then []
    else
      assert n / 256 < Power256(width - 1);
      BigEndian(n / 256, width - 1) + [n % 256]
  }

  lemma WordIsEightBytes()
    ensures Power256(8) == WORD
  {
    assert Power256(2) == 0x1_0000;
    assert Power256(4) == 0x1_0000_0000;
    assert Power256(6) == 0x1_0000_0000_0000;
  }

  function Word(n: nat): (bytes: seq<Byte>)
    requires n < WORD
    ensures |bytes| == 8
  {
    WordIsEightBytes();
    BigEndian(n, 8)
  }

  function EncodeField(value: seq<Byte>): (bytes: seq<Byte>)
    requires |value| < WORD
    ensures |bytes| == 8 + |value|
  {
    Word(|value|) + value
  }

  // ---------------------------------------------------------------------------------
  // Records
  // ---------------------------------------------------------------------------------

  predicate SafeChar(c: char) {
    'A' <= c <= 'Z' || 'a' <= c <= 'z' || '0' <= c <= '9' || c in "._+@=-"
  }

  /** Nonempty segments of safe characters, separated by single slashes. */
  predicate SafePath(s: string) {
    && s != ""
    && s[0] != '/' && s[|s| - 1] != '/'
    && (forall i | 0 <= i < |s| :: SafeChar(s[i]) || s[i] == '/')
    && (forall i | 0 < i < |s| :: s[i] == '/' ==> s[i - 1] != '/')
  }

  predicate LowerHex(s: string, length: nat) {
    |s| == length && forall i | 0 <= i < |s| :: '0' <= s[i] <= '9' || 'a' <= s[i] <= 'f'
  }

  predicate Canonical(r: Record) {
    && SafePath(r.path)
    && (r.mode == "100644" || r.mode == "100755")
    && r.kind == "blob"
    && 0 <= r.size
    && LowerHex(r.blobOid, 40)
    && LowerHex(r.sha256, 64)
  }

  predicate Encodable(r: Record) {
    Canonical(r) && |r.path| < WORD && r.size < WORD
  }

  lemma CanonicalIsAscii(r: Record)
    requires Canonical(r)
    ensures IsAscii(r.path) && IsAscii(r.mode) && IsAscii(r.kind) && IsAscii(r.blobOid) && IsAscii(r.sha256)
  {
    forall i | 0 <= i < |r.path| ensures r.path[i] as int < 128 {}
  }

  /** The six length-delimited fields of a record, in the order they are hashed. */
  function RecordBytes(r: Record): (bytes: seq<Byte>)
    requires Encodable(r)
    ensures |bytes| >= 48
  {
    CanonicalIsAscii(r);
    EncodeField(Ascii(r.path)) + (EncodeField(Ascii(r.mode)) + (EncodeField(Ascii(r.kind)) +
    (EncodeField(Ascii(r.blobOid)) + (EncodeField(Word(r.size)) + EncodeField(Ascii(r.sha256))))))
  }

  lemma Reassociate(r: Record, rest: seq<Byte>, after: seq<Byte>)
    requires Encodable(r)
    requires IsAscii(r.path) && IsAscii(r.mode) && IsAscii(r.kind) && IsAscii(r.blobOid) && IsAscii(r.sha256)
    requires after == EncodeField(Ascii(r.mode)) + (EncodeField(Ascii(r.kind)) + (EncodeField(Ascii(r.blobOid)) +
                      (EncodeField(Word(r.size)) + (EncodeField(Ascii(r.sha256)) + rest))))
    ensures RecordBytes(r) + rest == EncodeField(Ascii(r.path)) + after
  {
    var f, e := EncodeField(Ascii(r.sha256)), EncodeField(Word(r.size));
    var d, c, b := EncodeField(Ascii(r.blobOid)), EncodeField(Ascii(r.kind)), EncodeField(Ascii(r.mode));
    assert b + (c + (d + (e + f))) + rest == b + (c + (d + (e + (f + rest))));
  }

  predicate AllEncodable(rs: seq<Record>) {
    forall r | r in rs :: Encodable(r)
  }

  function Stream(rs: seq<Record>): seq<Byte>
    requires AllEncodable(rs)
  {
    if rs == [] then [] else RecordBytes(rs[0]) + Stream(rs[1..])
  }

  function PreImage(rs: seq<Record>): seq<Byte>
    requires AllEncodable(rs)
  {
    POLICY_DOMAIN + Stream(rs)
  }

  // ---------------------------------------------------------------------------------
  // Reading the stream back
  // ---------------------------------------------------------------------------------

  /** Bytes as a number, the first weighing most. */
  function Weighed(bytes: seq<Byte>): nat {
    if bytes == [] then 0 else bytes[0] * Power256(|bytes| - 1) + Weighed(bytes[1..])
  }

  lemma {:induction false} WeighedAppend(bytes: seq<Byte>, b: Byte)
    ensures Weighed(bytes + [b]) == 256 * Weighed(bytes) + b
  {
    if bytes == [] {
      assert [b][1..] == [];
    } else {
      WeighedAppend(bytes[1..], b);
      assert (bytes + [b])[1..] == bytes[1..] + [b];
      Heavier(bytes[0], |bytes| - 1);
    }
  }

  lemma Heavier(b: Byte, k: nat)
    ensures b * Power256(k + 1) == 256 * (b * Power256(k))
  {
  }

  /** Byte `i` of a word of `width` bytes weighs 256 to the power `width - 1 - i`, and they sum to the number. */
  lemma {:induction false} BigEndianWeighs(n: nat, width: nat)
    requires n < Power256(width)
    ensures Weighed(BigEndian(n, width)) == n
  {
    if width > 0 {
      assert n / 256 < Power256(width - 1);
      BigEndianWeighs(n / 256, width - 1);
      WeighedAppend(BigEndian(n / 256, width - 1), n % 256);
    }
  }

  lemma WordWeighs(n: nat)
    requires n < WORD
    ensures Weighed(Word(n)) == n
  {
    WordIsEightBytes();
    BigEndianWeighs(n, 8);
  }

  /** Eight bytes of length, and as many bytes. */
  function TakeField(s: seq<Byte>): Option<(seq<Byte>, seq<Byte>)> {
    if |s| < 8 || |s| < 8 + Weighed(s[..8]) then None
    else Some((s[8..8 + Weighed(s[..8])], s[8 + Weighed(s[..8])..]))
  }

  lemma FieldTaken(value: seq<Byte>, rest: seq<Byte>)
    requires |value| < WORD
    ensures TakeField(EncodeField(value) + rest) == Some((value, rest))
  {
    var s := EncodeField(value) + rest;
    assert s[..8] == Word(|value|);
    WordWeighs(|value|);
    assert s[8..8 + |value|] == value && s[8 + |value|..] == rest;
  }

  function Text(bytes: seq<Byte>): string {
    seq(|bytes|, i requires 0 <= i < |bytes| => bytes[i] as char)
  }

  lemma TextOfAscii(s: string)
    requires IsAscii(s)
    ensures Text(Ascii(s)) == s
  {
    forall i | 0 <= i < |s| ensures Text(Ascii(s))[i] == s[i] { assert Ascii(s)[i] == s[i] as int; }
  }

  /** As many fields as asked for. */
  function TakeFields(s: seq<Byte>, count: nat): Option<(seq<seq<Byte>>, seq<Byte>)>
    ensures TakeFields(s, count).Some? ==> |TakeFields(s, count).value.0| == count
    ensures TakeFields(s, count).Some? && count > 0 ==> |TakeFields(s, count).value.1| < |s|
    decreases count
  {
    if count == 0 then Some(([], s))
    else
      match TakeField(s)
      case None => None
      case Some((value, rest)) =>
        match TakeFields(rest, count - 1)
        case None => None
        case Some((more, left)) => Some(([value] + more, left))
  }

  /** The fields of a record are its path, mode, kind, blob, size and digest. */
  function RecordOf(fields: seq<seq<Byte>>): Record
    requires |fields| == 6
  {
    Record(Text(fields[0]), Text(fields[1]), Text(fields[2]), Weighed(fields[4]), Text(fields[3]), Text(fields[5]))
  }

  function Decoded(s: seq<Byte>): Option<seq<Record>>
    decreases |s|
  {
    if s == [] then Some([])
    else
      match TakeFields(s, 6)
      case None => None
      case Some((fields, rest)) =>
        match Decoded(rest)
        case None => None
        case Some(rs) => Some([RecordOf(fields)] + rs)
  }

  lemma OneMoreField(value: seq<Byte>, rest: seq<Byte>, count: nat)
    requires |value| < WORD && TakeFields(rest, count).Some?
    ensures TakeFields(EncodeField(value) + rest, count + 1) ==
            Some(([value] + TakeFields(rest, count).value.0, TakeFields(rest, count).value.1))
  {
    FieldTaken(value, rest);
  }

  lemma RecordTaken(r: Record, rest: seq<Byte>)
    requires Encodable(r)
    ensures TakeFields(RecordBytes(r) + rest, 6).Some?
    ensures TakeFields(RecordBytes(r) + rest, 6).value.1 == rest
    ensures RecordOf(TakeFields(RecordBytes(r) + rest, 6).value.0) == r
  {
    CanonicalIsAscii(r);
    var a6 := EncodeField(Ascii(r.sha256)) + rest;
    var a5 := EncodeField(Word(r.size)) + a6;
    var a4 := EncodeField(Ascii(r.blobOid)) + a5;
    var a3 := EncodeField(Ascii(r.kind)) + a4;
    var a2 := EncodeField(Ascii(r.mode)) + a3;
    Reassociate(r, rest, a2);
    OneMoreField(Ascii(r.sha256), rest, 0);
    OneMoreField(Word(r.size), a6, 1);
    OneMoreField(Ascii(r.blobOid), a5, 2);
    OneMoreField(Ascii(r.kind), a4, 3);
    OneMoreField(Ascii(r.mode), a3, 4);
    OneMoreField(Ascii(r.path), a2, 5);
    RecordFromFields(r, TakeFields(RecordBytes(r) + rest, 6).value.0);
  }

  lemma RecordFromFields(r: Record, fields: seq<seq<Byte>>)
    requires Encodable(r) && |fields| == 6
    requires IsAscii(r.path) && IsAscii(r.mode) && IsAscii(r.kind) && IsAscii(r.blobOid) && IsAscii(r.sha256)
    requires fields[0] == Ascii(r.path) && fields[1] == Ascii(r.mode) && fields[2] == Ascii(r.kind)
    requires fields[3] == Ascii(r.blobOid) && fields[4] == Word(r.size) && fields[5] == Ascii(r.sha256)
    ensures RecordOf(fields) == r
  {
    TextOfAscii(r.path);
    TextOfAscii(r.mode);
    TextOfAscii(r.kind);
    TextOfAscii(r.blobOid);
    TextOfAscii(r.sha256);
    WordWeighs(r.size);
  }

  /** For every list of records, the hashed stream is decoded back into it, field by field. */
  lemma {:induction false} StreamDecodes(rs: seq<Record>)
    requires AllEncodable(rs)
    ensures Decoded(Stream(rs)) == Some(rs)
  {
    if rs != [] {
      StreamDecodes(rs[1..]);
      OneMoreRecord(rs[0], Stream(rs[1..]), rs[1..]);
      assert rs == [rs[0]] + rs[1..];
    }
  }

  lemma OneMoreRecord(r: Record, rest: seq<Byte>, rs: seq<Record>)
    requires Encodable(r) && Decoded(rest) == Some(rs)
    ensures Decoded(RecordBytes(r) + rest) == Some([r] + rs)
  {
    RecordTaken(r, rest);
    DecodedCons(RecordBytes(r) + rest, r, rest, rs);
  }

  lemma DecodedCons(s: seq<Byte>, r: Record, rest: seq<Byte>, rs: seq<Record>)
    requires s != [] && TakeFields(s, 6).Some? && TakeFields(s, 6).value.1 == rest && Decoded(rest) == Some(rs)
    requires RecordOf(TakeFields(s, 6).value.0) == r
    ensures Decoded(s) == Some([r] + rs)
  {
  }

  /** The text RMUX-RELEASE-POLICY, a zero and a two, byte by byte, and then the stream. */
  lemma PreImageDecodes(rs: seq<Record>)
    requires AllEncodable(rs)
    ensures |PreImage(rs)| >= 21
    ensures PreImage(rs)[..21] == [82, 77, 85, 88, 45, 82, 69, 76, 69, 65, 83, 69, 45, 80, 79, 76, 73, 67, 89, 0, 2]
    ensures Decoded(PreImage(rs)[21..]) == Some(rs)
  {
    var name := "RMUX-RELEASE-POLICY";
    assert Ascii(name) == [82, 77, 85, 88, 45, 82, 69, 76, 69, 65, 83, 69, 45, 80, 79, 76, 73, 67, 89];
    assert PreImage(rs)[..21] == POLICY_DOMAIN && PreImage(rs)[21..] == Stream(rs);
    StreamDecodes(rs);
  }

  /** So the pre-image determines the records, for any number of them. */
  lemma PreImageInjective(rs: seq<Record>, rs': seq<Record>)
    requires AllEncodable(rs) && AllEncodable(rs') && PreImage(rs) == PreImage(rs')
    ensures rs == rs'
  {
    PreImageDecodes(rs);
    PreImageDecodes(rs');
  }

  // ---------------------------------------------------------------------------------
  // Validation
  // ---------------------------------------------------------------------------------

  function Paths(rs: seq<Record>): (ps: seq<string>)
    ensures |ps| == |rs| && forall i | 0 <= i < |rs| :: ps[i] == rs[i].path
  {
    seq(|rs|, i requires 0 <= i < |rs| => rs[i].path)
  }

  predicate Identified(report: Report, sourceSha: string) {
    && report.schemaVersion == 1
    && report.algorithm == ALGORITHM
    && report.sourceSha == sourceSha
    && report.contractPath == CONTRACT_PATH
    && report.contractMode == "100644"
    && report.contractType == "blob"
    && LowerHex(report.contractBlobOid, 40)
    && report.records != []
  }

  /** The reports that are accepted, with the contract's record. */
  ghost predicate Accepts(report: Report, sourceSha: string, hash: seq<Byte> -> string, contract: Record) {
    && Identified(report, sourceSha)
    && AllEncodable(report.records)
    && Ascending(Paths(report.records))
    && hash(PreImage(report.records)) == report.policySha256
    && contract in report.records
    && contract.path == CONTRACT_PATH
    && contract.blobOid == report.contractBlobOid
  }

  method ValidatePolicy(report: Report, sourceSha: string, hash: seq<Byte> -> string)
    returns (r: Result<Record, Error>)
    ensures r.Ok? ==> Accepts(report, sourceSha, hash, r.value)
    ensures r.Err? ==> forall contract :: !Accepts(report, sourceSha, hash, contract)
  {
    if !Identified(report, sourceSha) {
      return Err(Refused);
    }
    var hashed := HashRecords(report.records);
    if hashed.Err? {
      return Err(hashed.error);
    }
    var Hashed(stream, paths, contract) := hashed.value;
    var ordered := IsAscending(paths);
    if !ordered {
      return Err(Refused);
    }
    ContractOfIsLast(report.records);
    if contract.None? {
      return Err(Refused);
    }
    if hash(stream) != report.policySha256 {
      return Err(Refused);
    }
    OnlyContract(report.records, contract.value);
    if contract.value.blobOid != report.contractBlobOid {
      return Err(Refused);
    }
    return Ok(contract.value);
  }

  /** What the record loop has built: the hashed bytes, the paths and the contract's record. */
  datatype Hashed = Hashed(stream: seq<Byte>, paths: seq<string>, contract: Option<Record>)

  function ContractOf(rs: seq<Record>): Option<Record> {
    if rs == [] then None
    else if rs[|rs| - 1].path == CONTRACT_PATH then Some(rs[|rs| - 1])
    else ContractOf(rs[..|rs| - 1])
  }

  lemma {:induction false} ContractOfIsLast(rs: seq<Record>)
    ensures ContractOf(rs).Some? ==> ContractOf(rs).value in rs && ContractOf(rs).value.path == CONTRACT_PATH
    ensures ContractOf(rs).None? ==> forall c | c in rs :: c.path != CONTRACT_PATH
  {
    if rs != [] {
      ContractOfIsLast(rs[..|rs| - 1]);
      assert rs == rs[..|rs| - 1] + [rs[|rs| - 1]];
    }
  }

  function After(rs: seq<Record>): Hashed
    requires AllEncodable(rs)
  {
    Hashed(PreImage(rs), Paths(rs), ContractOf(rs))
  }

  lemma AfterAppend(rs: seq<Record>, r: Record)
    requires AllEncodable(rs) && Encodable(r)
    ensures AllEncodable(rs + [r])
    ensures After(rs + [r]) ==
            Hashed(After(rs).stream + RecordBytes(r), After(rs).paths + [r.path],
                   if r.path == CONTRACT_PATH then Some(r) else After(rs).contract)
  {
    StreamAppend(rs, r);
    assert Paths(rs + [r]) == Paths(rs) + [r.path];
    assert (rs + [r])[..|rs|] == rs;
  }

  method HashRecords(records: seq<Record>) returns (r: Result<Hashed, Error>)
    ensures r.Ok? <==> AllEncodable(records)
    ensures r.Ok? ==> r.value == After(records)
  {
    var stream := POLICY_DOMAIN;
    var paths: seq<string> := [];
    var contract: Option<Record> := None;
    var i := 0;
    while i < |records|
      invariant 0 <= i <= |records|
      invariant AllEncodable(records[..i]) && Hashed(stream, paths, contract) == After(records[..i])
    {
      var record := records[i];
      assert record in records && records[..i + 1] == records[..i] + [record];
      if !Canonical(record) {
        return Err(Refused);
      }
      paths := paths + [record.path];
      if |record.path| >= WORD || record.size >= WORD {
        return Err(Overflow);
      }
      AfterAppend(records[..i], record);
      stream := stream + RecordBytes(record);
      if record.path == CONTRACT_PATH {
        contract := Some(record);
      }
      i := i + 1;
    }
    assert records[..i] == records;
    return Ok(Hashed(stream, paths, contract));
  }

  lemma {:induction false} StreamAppend(rs: seq<Record>, r: Record)
    requires AllEncodable(rs) && Encodable(r)
    ensures AllEncodable(rs + [r])
    ensures PreImage(rs + [r]) == PreImage(rs) + RecordBytes(r)
  {
    StreamConcat(rs, r);
    assert POLICY_DOMAIN + (Stream(rs) + RecordBytes(r)) == PreImage(rs) + RecordBytes(r);
  }

  lemma Assoc(a: seq<Byte>, b: seq<Byte>, c: seq<Byte>)
    ensures a + (b + c) == (a + b) + c
  {
  }

  lemma StreamFirst(rs: seq<Record>, r: Record)
    requires rs != [] && AllEncodable(rs + [r])
    ensures AllEncodable(rs[1..] + [r]) && Stream(rs + [r]) == RecordBytes(rs[0]) + Stream(rs[1..] + [r])
  {
    assert (rs + [r])[1..] == rs[1..] + [r];
  }

  lemma {:induction false} StreamConcat(rs: seq<Record>, r: Record)
    requires AllEncodable(rs) && AllEncodable(rs + [r])
    ensures Stream(rs + [r]) == Stream(rs) + RecordBytes(r)
  {
    if rs == [] {
      assert rs + [r] == [r] && Stream([r][1..]) == [];
    } else {
      StreamConcat(rs[1..], r);
      StreamFirst(rs, r);
      Assoc(RecordBytes(rs[0]), Stream(rs[1..]), RecordBytes(r));
    }
  }

  lemma OnlyContract(rs: seq<Record>, c: Record)
    requires Ascending(Paths(rs)) && c in rs && c.path == CONTRACT_PATH
    ensures forall d | d in rs && d.path == CONTRACT_PATH :: d == c
  {
    AscendingDistinct(Paths(rs));
    forall d | d in rs && d.path == CONTRACT_PATH ensures d == c {
      var i :| 0 <= i < |rs| && rs[i] == c;
      var j :| 0 <= j < |rs| && rs[j] == d;
      assert Paths(rs)[i] == Paths(rs)[j];
    }
  }

  /** Sorted and without repeats, by comparing neighbours. */
  method IsAscending(paths: seq<string>) returns (ok: bool)
    ensures ok <==> Ascending(paths)
  {
    var i := 1;
    while i < |paths|
      invariant 1 <= i
      invariant i <= |paths| || |paths| == 0
      invariant forall k | 0 < k < i && k < |paths| :: Less(paths[k - 1], paths[k])
    {
      if !Less(paths[i - 1], paths[i]) {
        return false;
      }
      i := i + 1;
    }
    AdjacentAscending(paths);
    return true;
  }

  /** Two accepted reports with one digest name the same records, unless the hash collides on them. */
  lemma DigestBindsRecords(a: Report, b: Report, sha: string, sha': string, hash: seq<Byte> -> string, c: Record, d: Record)
    requires Accepts(a, sha, hash, c) && Accepts(b, sha', hash, d)
    requires a.policySha256 == b.policySha256
    ensures a.records == b.records ||
            (PreImage(a.records) != PreImage(b.records) && hash(PreImage(a.records)) == hash(PreImage(b.records)))
  {
    if PreImage(a.records) == PreImage(b.records) { PreImageInjective(a.records, b.records); }
  }
}
