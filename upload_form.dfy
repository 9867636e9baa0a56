/** The evidence upload form (client/src/components/evidence/upload-form.tsx):
    its schema, the hexadecimal rendering of the file digest, and the order
    of the four awaited steps of the upload. */
module UploadForm {
  import opened Wrappers
  import opened Json
  import opened Schema
  import Routes

  newtype byte = x: int | 0 <= x < 256

  // ------------------------------------------------------ hex rendering

  predicate IsLowerHex(c: char) {
    '0' <= c <= '9' || 'a' <= c <= 'f'
  }

  function HexDigit(d: nat): (c: char)
    requires d < 16
    ensures IsLowerHex(c)
  {
    if d < 10 then ('0' as int + d) as char else ('a' as int + d - 10) as char
  }

  function HexValue(c: char): (d: nat)
    requires IsLowerHex(c)
    ensures d < 16 && HexDigit(d) == c
  {
    if '0' <= c <= '9' then c as int - '0' as int else c as int - 'a' as int + 10
  }

  /** `n.toString(16)`: lower-case digits, no leading zeros. */
  function ToBase16(n: nat): (r: string)
    ensures r != []
    ensures forall i :: 0 <= i < |r| ==> IsLowerHex(r[i])
  {
    if n < 16 then [HexDigit(n)] else ToBase16(n / 16) + [HexDigit(n % 16)]
  }

  /** `s.padStart(width, fill)` for a one-character `fill`. */
  function PadStart(s: string, width: nat, fill: char): (r: string)
    ensures |r| == if |s| < width then width else |s|
    ensures r[|r| - |s|..] == s
    ensures forall i :: 0 <= i < |r| - |s| ==> r[i] == fill
  {
    if |s| >= width then s else seq(width - |s|, _ => fill) + s
  }

  /** `b.toString(16).padStart(2, '0')`. */
  function ByteHex(b: byte): string {
    PadStart(ToBase16(b as nat), 2, '0')
  }

  /** Each byte becomes exactly two digits, the high nibble first. */
  lemma ByteHexDigits(b: byte)
    ensures ByteHex(b) == [HexDigit(b as nat / 16), HexDigit(b as nat % 16)]
  {
    var n := b as nat;
    if n < 16 {
      assert ToBase16(n) == [HexDigit(n)];
      var r := ByteHex(b);
      assert |r| == 2 && r[1..] == [HexDigit(n)] && r[0] == '0';
      assert HexDigit(0) == '0';
    } else {
      assert ToBase16(n / 16) == [HexDigit(n / 16)];
    }
  }

  /** `Array.from(bytes).map(b => ...).join('')`. */
  function HexEncode(bytes: seq<byte>): (r: string)
    ensures |r| == 2 * |bytes|
    ensures forall i :: 0 <= i < |r| ==> IsLowerHex(r[i])
  {
    if bytes == [] then ""
    else
      ByteHexDigits(bytes[0]);
      ByteHex(bytes[0]) + HexEncode(bytes[1..])
  }

  /** Reads the digits back in pairs; `None` when the text is not an even
      number of lower-case hexadecimal digits. */
  function HexDecode(s: string): (r: Option<seq<byte>>)
    ensures r.Some? ==> |r.value| * 2 == |s|
    decreases |s|
  {
    if s == [] then Some([])
    else if |s| < 2 || !IsLowerHex(s[0]) || !IsLowerHex(s[1]) then None
    else
      match HexDecode(s[2..])
      case None => None
      case Some(rest) => Some([(HexValue(s[0]) * 16 + HexValue(s[1])) as byte] + rest)
  }

  /** Decoding the pairs of an encoding recovers the bytes. */
  lemma {:induction false} HexRoundTrip(bytes: seq<byte>)
    ensures HexDecode(HexEncode(bytes)) == Some(bytes)
  {
    if bytes != [] {
      var b := bytes[0];
      var hi, lo := HexDigit(b as nat / 16), HexDigit(b as nat % 16);
      var tail := HexEncode(bytes[1..]);
      ByteHexDigits(b);
      assert HexEncode(bytes) == [hi, lo] + tail;
      HexRoundTrip(bytes[1..]);
      DecodePair(hi, lo, tail);
      NibblesRecombine(b);
      assert [b] + bytes[1..] == bytes;
    }
  }

  /** Decoding reads one leading pair and goes on with the rest. */
  lemma DecodePair(hi: char, lo: char, rest: string)
    requires IsLowerHex(hi) && IsLowerHex(lo)
    ensures HexDecode([hi, lo] + rest) ==
            match HexDecode(rest)
            case None => None
            case Some(r) => Some([(HexValue(hi) * 16 + HexValue(lo)) as byte] + r)
  {
    assert ([hi, lo] + rest)[2..] == rest;
  }

  /** The two digits of a byte give the byte back. */
  lemma NibblesRecombine(b: byte)
    ensures HexValue(HexDigit(b as nat / 16)) * 16 + HexValue(HexDigit(b as nat % 16)) == b as int
  {
    HexDigitInverse(b as nat / 16);
    HexDigitInverse(b as nat % 16);
  }

  lemma HexDigitInverse(d: nat)
    requires d < 16
    ensures HexValue(HexDigit(d)) == d
  {
  }

  /** Different byte strings have different renderings. */
  lemma HexInjective(a: seq<byte>, b: seq<byte>)
    requires HexEncode(a) == HexEncode(b)
    ensures a == b
  {
    HexRoundTrip(a);
    HexRoundTrip(b);
  }

  // ------------------------------------------------------------ the form

  /** The selected `File`: its name, size, MIME type and bytes. */
  datatype File = File(name: string, size: nat, mimeType: string, content: seq<byte>)

  /** The form's values; `None` is a field never filled in. */
  datatype UploadValues = UploadValues(caseId: Option<string>, description: Option<string>, file: Option<File>)

  datatype UploadData = UploadData(caseId: string, description: string, file: File)

  /** uploadSchema. */
  function ParseUpload(v: UploadValues): (r: Option<UploadData>)
    ensures r.Some? <==>
              v.caseId.Some? && |v.caseId.value| >= 1 && v.description.Some? && |v.description.value| >= 10
              && v.file.Some?
    ensures r.Some? ==> r.value == UploadData(v.caseId.value, v.description.value, v.file.value)
  {
    if v.caseId.Some? && |v.caseId.value| >= 1 && v.description.Some? && |v.description.value| >= 10
       && v.file.Some?
    then Some(UploadData(v.caseId.value, v.description.value, v.file.value))
    else None
  }

  /** The metadata the form builds: the description and the file's name,
      size and type, stamped with the time `now`. */
  function UploadMetadata(data: UploadData, now: string): (m: Metadata)
    ensures m.description == data.description && m.timestamp == now
    ensures m.fileName == data.file.name && m.fileSize == data.file.size && m.fileType == data.file.mimeType
    ensures m.location.None? && m.deviceInfo.None? && m.additionalNotes.None?
  {
    Metadata(data.description, data.file.name, data.file.size, data.file.mimeType, now, None, None, None)
  }

  /** The body of the POST to /api/evidence. */
  function UploadBody(data: UploadData, fileHash: string, ipfsHash: string, metadata: Metadata, txHash: string): (j: Json)
    ensures Get(j, "status") == Some(JStr("pending"))
    ensures Get(j, "ipfsHash") == Some(JStr(ipfsHash)) && Get(j, "fileHash") == Some(JStr(fileHash))
    ensures Get(j, "caseId") == Some(JStr(data.caseId))
    ensures Get(j, "metadata") == Some(EncodeMetadata(metadata))
    ensures Get(j, "transactionHash") == Some(JStr(txHash))
    ensures Get(j, "submittedBy").None? && Get(j, "priority").None? && Get(j, "tags").None?
  {
    JObj(map[
      "caseId" := JStr(data.caseId),
      "fileHash" := JStr(fileHash),
      "ipfsHash" := JStr(ipfsHash),
      "metadata" := EncodeMetadata(metadata),
      "status" := JStr("pending"),
      "transactionHash" := JStr(txHash)])
  }

  /** The awaited calls of `mutationFn`, each with what it is given. */
  datatype Step =
    | UploadToIpfs(file: File)
    | HashFile(file: File)
    | AnchorOnChain(ipfsHash: string, metadata: Metadata)
    | PostEvidence(body: Json)
  {
    function Index(): nat {
      match this
      case UploadToIpfs(_) => 0
      case HashFile(_) => 1
      case AnchorOnChain(_, _) => 2
      case PostEvidence(_) => 3
    }
  }

  /** Submitting the form. The collaborators are parameters: `ipfs` and
      `chain` are the answers of the content upload and the chain anchor
      (`None` when the call rejects), `digest` reads the file and takes its
      SHA-256 (`None` when reading or hashing rejects) and `now` is the
      clock's ISO time. The result lists the calls made, in order; a call
      that rejects is the last one made. */
  method Submit(v: UploadValues, ipfs: Option<string>, digest: seq<byte> -> Option<seq<byte>>,
                chain: Option<string>, now: string)
    returns (calls: seq<Step>)
    ensures ParseUpload(v).None? ==> calls == []
    ensures forall i :: 0 <= i < |calls| ==> calls[i].Index() == i
    ensures ParseUpload(v).Some? ==>
              |calls| == (if ipfs.None? then 1
                          else if digest(ParseUpload(v).value.file.content).None? then 2
                          else if chain.None? then 3
                          else 4)
    ensures |calls| >= 1 ==> calls[0] == UploadToIpfs(ParseUpload(v).value.file)
    ensures |calls| >= 2 ==> calls[1] == HashFile(ParseUpload(v).value.file)
    ensures |calls| >= 3 ==>
              calls[2] == AnchorOnChain(ipfs.value, UploadMetadata(ParseUpload(v).value, now))
    ensures |calls| == 4 ==>
              var data := ParseUpload(v).value;
              calls[3] == PostEvidence(UploadBody(data, HexEncode(digest(data.file.content).value),
                                                  ipfs.value, UploadMetadata(data, now), chain.value))
  {
    var parsed := ParseUpload(v);
    if parsed.None? {
      return [];
    }
    var data := parsed.value;
    calls := [UploadToIpfs(data.file)];
    if ipfs.None? {
      return;
    }
    var ipfsHash := ipfs.value;
    calls := calls + [HashFile(data.file)];
    var fileHash := digest(data.file.content);
    if fileHash.None? {
      return;
    }
    var fileHashHex := HexEncode(fileHash.value);
    var metadata := UploadMetadata(data, now);
    calls := calls + [AnchorOnChain(ipfsHash, metadata)];
    if chain.None? {
      return;
    }
    var txHash := chain.value;
    calls := calls + [PostEvidence(UploadBody(data, fileHashHex, ipfsHash, metadata, txHash))];
  }

  /** As written, the server rejects every body the form sends: the insert
      schema requires a non-empty `submittedBy`, which the form never sets. */
  lemma UploadBodyRejected(data: UploadData, fileHash: string, ipfsHash: string, metadata: Metadata, txHash: string)
    ensures ParseInsertEvidence(UploadBody(data, fileHash, ipfsHash, metadata, txHash)).None?
  {
  }

  /** With the submitter taken from the session before validation, the body
      of a form whose file has a name, a type and at least one byte is
      accepted, as a pending record of that submitter with the same content
      reference and digest. */
  lemma UploadBodyAccepted(data: UploadData, digest: seq<byte>, ipfsHash: string, now: string,
                           txHash: string, submitter: string)
    requires |data.description| >= 10 && data.caseId != ""
    requires data.file.name != "" && data.file.mimeType != "" && data.file.size >= 1
    requires |digest| == 32 && ipfsHash != "" && submitter != ""
    ensures var body := UploadBody(data, HexEncode(digest), ipfsHash, UploadMetadata(data, now), txHash);
            var r := Routes.ParseSubmission(body, submitter);
            && r.Some?
            && r.value.submittedBy == submitter && r.value.status == Pending && r.value.priority == Medium
            && r.value.ipfsHash == ipfsHash && r.value.fileHash == HexEncode(digest)
            && r.value.metadata == UploadMetadata(data, now)
  {
    var md := UploadMetadata(data, now);
    var body := UploadBody(data, HexEncode(digest), ipfsHash, md, txHash);
    var j := JObj(body.fields["submittedBy" := JStr(submitter)]);
    MetadataRoundTrip(md);
    assert ParseMetadata(j.fields["metadata"]) == Some(md);
    assert ParseStatus("pending") == Some(Pending);
    assert j.fields["status"] == JStr("pending");
    assert "priority" !in j.fields && "tags" !in j.fields;
    assert StringAt(j, "caseId", 1) && StringAt(j, "submittedBy", 1);
    assert StringAt(j, "fileHash", 1) && StringAt(j, "ipfsHash", 1);
    assert j.fields["transactionHash"].JStr?;
  }
}
