/**
 * The checks and bookkeeping of the cassette shell engine
 * (`prooflab/cassette_shell_engine_improved.py`): configuration and
 * metadata rules, name, password and file-name validation, when content is
 * encrypted, and how a cassette directory is sealed and verified.
 *
 * SHA-256, PBKDF2, Fernet, `json.dump`/`json.load` and the clock are
 * parameters; a directory is the list `iterdir` yields, in its order.
 */
module Cassette {
  import opened Text
  import opened Py
  import opened Paths
  import opened Ordering

  // ---------------------------------------------------------------------
  // Configuration and metadata
  // ---------------------------------------------------------------------

  datatype CassetteConfig = CassetteConfig(
    cassetteRoot: string,
    logLevel: string,
    encryptionEnabled: bool,
    hashAlgorithm: string,
    timestampFormat: string,
    idLength: int)

  /** What an ID length outside [8, 32] raises. */
  const IdLengthMessage := "ID length must be between 8 and 32 characters"

  /** What a blank cassette name raises. */
  const EmptyNameMessage := "Cassette name cannot be empty"

  /** What a cassette name over 255 characters raises. */
  const LongNameMessage := "Cassette name cannot exceed 255 characters"

  /** What a cassette name with a forbidden character raises, without the `: {...}` repr of the character set that Python appends (set order is not fixed). */
  const InvalidNameMessage := "Cassette name contains invalid characters"

  /** What a password under 8 characters raises. */
  const ShortPasswordMessage := "Password must be at least 8 characters long"

  /** What adding a payload to a missing cassette raises, without the `: <path>` tail that names the directory (paths are not modelled). */
  const PayloadNoDirectory := "Payload addition failed: Cassette directory does not exist"

  /** The head of the message for a payload filename that fails validation. */
  const PayloadBadFilename := "Payload addition failed: Invalid filename: "

  /** What sealing a missing cassette raises, without the `: <path>` tail that names the directory (paths are not modelled). */
  const SealNoDirectory := "Cassette sealing failed: Cassette directory does not exist"

  /** `CassetteConfig(...)`: the dataclass fields, then `__post_init__`'s range check on `id_length`. */
  function MakeConfig(cassetteRoot: string, logLevel: string, encryptionEnabled: bool,
                      hashAlgorithm: string, timestampFormat: string, idLength: int): (r: Result<CassetteConfig>)
    ensures r.Ok? <==> 8 <= idLength <= 32
    ensures r.Ok? ==> r.value.idLength == idLength && r.value.encryptionEnabled == encryptionEnabled
    ensures r.Err? ==> r.exc == ValueError(IdLengthMessage)
  {
    if idLength < 8 || idLength > 32 then Err(ValueError(IdLengthMessage))
    else Ok(CassetteConfig(cassetteRoot, logLevel, encryptionEnabled, hashAlgorithm, timestampFormat, idLength))
  }

  /** `CassetteConfig()` with every default. */
  function DefaultConfig(): Result<CassetteConfig>
  {
    MakeConfig("./FB_Cassettes", "INFO", true, "sha256", "%Y-%m-%dT%H:%M:%S.%fZ", 12)
  }

  /** The defaults pass the range check: encryption on and twelve-character ids. */
  lemma DefaultConfigValid()
    ensures DefaultConfig().Ok?
    ensures DefaultConfig().value.idLength == 12 && DefaultConfig().value.encryptionEnabled
  {
  }

  datatype CassetteMetadata = CassetteMetadata(
    name: string,
    id: string,
    created: string,
    tags: seq<string>,
    validated: bool,
    encrypted: bool,
    cspTag: string,
    version: string)

  /** The generated tag: `today` is `utcnow().strftime('%m%d%y')`. */
  function CspTag(today: string, id: string): string
  {
    "FB-CSP-HV-" + today + "-" + Prefix(id, 6)
  }

  /** `CassetteMetadata(...)`: the fields, then `__post_init__` fills an empty `csp_tag`. */
  function MakeMetadata(name: string, id: string, created: string, tags: seq<string>, validated: bool,
                        encrypted: bool, cspTag: string, version: string, today: string): (m: CassetteMetadata)
    ensures m.cspTag != []
    ensures cspTag != [] ==> m.cspTag == cspTag
    ensures cspTag == [] ==> m.cspTag == CspTag(today, id) && StartsWith(m.cspTag, "FB-CSP-HV-")
    ensures m.(cspTag := cspTag) == CassetteMetadata(name, id, created, tags, validated, encrypted, cspTag, version)
  {
    CassetteMetadata(name, id, created, tags, validated, encrypted,
                     if cspTag == [] then CspTag(today, id) else cspTag, version)
  }

  /** The generated tag ends with the first six characters of the id. */
  lemma CspTagEndsWithId(today: string, id: string)
    requires |id| >= 6
    ensures EndsWith(CspTag(today, id), id[..6])
  {
  }

  // ---------------------------------------------------------------------
  // Validation
  // ---------------------------------------------------------------------

  /** `CassetteValidationError(msg)` */
  function ValidationError(msg: string): Exc
  {
    OtherError("CassetteValidationError", msg)
  }

  /** `CassetteError(msg)` */
  function CassetteError(msg: string): Exc
  {
    OtherError("CassetteError", msg)
  }

  /** The characters a cassette name may not contain. */
  const InvalidChars: set<char> := {'<', '>', ':', '"', '/', '\\', '|', '?', '*'}

  /**
   * `_validate_name`: a blank name, then a name over 255 characters, then a
   * name with a forbidden character is refused, in that order.
   */
  function ValidateName(name: string): (r: Result<()>)
    ensures r.Ok? <==> !IsBlank(name) && |name| <= 255 && forall i :: 0 <= i < |name| ==> name[i] !in InvalidChars
    ensures IsBlank(name) ==> r == Err(ValidationError(EmptyNameMessage))
    ensures !IsBlank(name) && |name| > 255 ==> r == Err(ValidationError(LongNameMessage))
  {
    if name == [] || IsBlank(name) then Err(ValidationError(EmptyNameMessage))
    else if |name| > 255 then Err(ValidationError(LongNameMessage))
    else if exists i :: 0 <= i < |name| && name[i] in InvalidChars then
      Err(ValidationError(InvalidNameMessage))
    else Ok(())
  }

  /** `add_payload`'s file-name rule: non-empty, no "..", not absolute. */
  predicate ValidFilename(filename: string)
  {
    filename != [] && !Contains(filename, "..") && !StartsWith(filename, "/")
  }

  // ---------------------------------------------------------------------
  // Hex digests and ids
  // ---------------------------------------------------------------------

  predicate IsHexDigit(c: char)
  {
    '0' <= c <= '9' || 'a' <= c <= 'f'
  }

  predicate IsHex(s: string)
  {
    forall i :: 0 <= i < |s| ==> IsHexDigit(s[i])
  }

  /** A SHA-256 `hexdigest()`: 64 lower-case hex digits. */
  type Digest = s: string | |s| == 64 && IsHex(s)
    witness ZeroDigest()

  function ZeroDigest(): (s: string)
    ensures |s| == 64 && IsHex(s)
  {
    seq(64, _ => '0')
  }

  function HexDigit(n: nat): (c: char)
    requires n < 16
    ensures IsHexDigit(c)
  {
    if n < 10 then ('0' as int + n) as char else ('a' as int + n - 10) as char
  }

  /** `bytes.hex()`: two lower-case digits per byte. */
  function Hex(bytes: seq<bv8>): (r: string)
    ensures |r| == 2 * |bytes| && IsHex(r)
  {
    if bytes == [] then []
    else
      var b := bytes[0] as int;
      [HexDigit(b / 16), HexDigit(b % 16)] + Hex(bytes[1..])
  }

  /** The key `_generate_encryption_key` derives from a password and a 16-byte salt. */
  datatype Key = Derived(password: string, salt: seq<bv8>)

  /** One added file: its name and the text written to it. */
  datatype Payload = Payload(filename: string, content: string)

  // ---------------------------------------------------------------------
  // The engine
  // ---------------------------------------------------------------------

  class Engine {
    var config: CassetteConfig
    var key: Option<Key>

    /** A configuration object has passed its own range check. */
    predicate Valid()
      reads this
    {
      8 <= config.idLength <= 32
    }

    /** `CassetteShellEngine(config)`: `config or CassetteConfig()`, and no key yet. */
    constructor(config: Option<CassetteConfig>)
      requires config.Some? ==> 8 <= config.value.idLength <= 32
      ensures Valid()
      ensures this.config == (if config.Some? then config.value else DefaultConfig().value)
      ensures key == None
    {
      DefaultConfigValid();
      this.config := if config.Some? then config.value else DefaultConfig().value;
      key := None;
    }

    /**
     * `set_encryption_password`: a password shorter than eight characters
     * (the empty one included) is refused and the key is left as it was;
     * otherwise the key derived from it with a fresh salt replaces it.
     */
    method SetEncryptionPassword(password: string, salt: seq<bv8>) returns (r: Result<()>)
      requires |salt| == 16
      modifies this
      ensures config == old(config)
      ensures r.Ok? <==> |password| >= 8
      ensures r.Err? ==> key == old(key) && r.exc == ValidationError(ShortPasswordMessage)
      ensures r.Ok? ==> key == Some(Derived(password, salt))
    {
      if password == [] || |password| < 8 {
        return Err(ValidationError(ShortPasswordMessage));
      }
      key := Some(Derived(password, salt));
      r := Ok(());
    }

    /**
     * `_generate_cassette_id`: the first `id_length` digits of the digest of
     * the name, the timestamp and eight random bytes.
     */
    function CassetteId(name: string, timestamp: string, nonce: seq<bv8>, sha: string -> Digest): (id: string)
      requires Valid()
      reads this
      ensures |id| == config.idLength && IsHex(id)
      ensures id == sha(name + "_" + timestamp + "_" + Hex(nonce))[..config.idLength]
    {
      sha(name + "_" + timestamp + "_" + Hex(nonce))[..config.idLength]
    }

    /**
     * `create_cassette` without the directory and `meta.json` writes: the
     * cassette directory and the metadata written into it. A bad name is
     * reported as a creation failure.
     */
    method CreateCassette(name: string, tags: Option<seq<string>>, timestamp: string, nonce: seq<bv8>,
                          today: string, sha: string -> Digest)
      returns (r: Result<(string, CassetteMetadata)>)
      requires Valid()
      ensures r.Ok? <==> ValidateName(name).Ok?
      ensures r.Err? ==> r.exc == CassetteError("Cassette creation failed: " + Message(ValidateName(name).exc))
      ensures r.Ok? ==> var (dir, m) := r.value;
        && dir == config.cassetteRoot + "/" + m.id
        && m.id == CassetteId(name, timestamp, nonce, sha)
        && m.name == name && m.created == timestamp
        && m.tags == (if tags.Some? then tags.value else [])
        && !m.validated && m.version == "2.0"
        && (m.encrypted <==> config.encryptionEnabled && key.Some?)
        && m.cspTag == CspTag(today, m.id)
    {
      var v := ValidateName(name);
      if v.Err? {
        return Err(CassetteError("Cassette creation failed: " + Message(v.exc)));
      }
      var id := CassetteId(name, timestamp, nonce, sha);
      var dir := config.cassetteRoot + "/" + id;
      var m := MakeMetadata(name, id, timestamp, if tags.Some? then tags.value else [], false,
                            config.encryptionEnabled && key.Some?, "", "2.0", today);
      r := Ok((dir, m));
    }

    /** `_encrypt_content`: the Fernet token when encryption is on and a key is set, else the content itself. */
    function EncryptContent(content: string, fernet: (Key, string) -> string): (out: string)
      reads this
      ensures !config.encryptionEnabled || key.None? ==> out == content
      ensures config.encryptionEnabled && key.Some? ==> out == fernet(key.value, content)
    {
      if !config.encryptionEnabled || key.None? then content else fernet(key.value, content)
    }

    /**
     * `add_payload` without the write: a missing cassette directory or a
     * bad file name is refused; otherwise the text to write, encrypted
     * only when the call (or, without a choice, the configuration) asks
     * for it, a key is set, and `_encrypt_content` agrees.
     */
    method AddPayload(dirExists: bool, filename: string, content: string, encrypt: Option<bool>,
                      fernet: (Key, string) -> string)
      returns (r: Result<Payload>)
      ensures r.Ok? <==> dirExists && ValidFilename(filename)
      ensures r.Ok? ==> r.value.filename == filename
      ensures r.Ok? ==>
        r.value.content == if ShouldEncrypt(encrypt, config) && key.Some? && config.encryptionEnabled
                           then fernet(key.value, content) else content
    {
      if !dirExists {
        return Err(CassetteError(PayloadNoDirectory));
      }
      if filename == [] || Contains(filename, "..") || StartsWith(filename, "/") {
        return Err(CassetteError(PayloadBadFilename + filename));
      }
      var shouldEncrypt := if encrypt.Some? then encrypt.value else config.encryptionEnabled;
      var processed := content;
      if shouldEncrypt && key.Some? {
        processed := EncryptContent(content, fernet);
      }
      r := Ok(Payload(filename, processed));
    }

    /**
     * `add_payload` as its documentation describes it: an explicit
     * `encrypt=True` encrypts whenever a key is set, whatever the
     * configuration's default.
     */
    method AddPayloadCorrected(dirExists: bool, filename: string, content: string, encrypt: Option<bool>,
                               fernet: (Key, string) -> string)
      returns (r: Result<Payload>)
      ensures r.Ok? <==> dirExists && ValidFilename(filename)
      ensures r.Ok? ==> r.value.filename == filename
      ensures r.Ok? ==>
        r.value.content == if ShouldEncrypt(encrypt, config) && key.Some? then fernet(key.value, content) else content
    {
      if !dirExists {
        return Err(CassetteError(PayloadNoDirectory));
      }
      if !ValidFilename(filename) {
        return Err(CassetteError(PayloadBadFilename + filename));
      }
      var processed := content;
      if ShouldEncrypt(encrypt, config) && key.Some? {
        processed := fernet(key.value, content);
      }
      r := Ok(Payload(filename, processed));
    }
  }

  /** `encrypt if encrypt is not None else config.encryption_enabled` */
  function ShouldEncrypt(encrypt: Option<bool>, config: CassetteConfig): bool
  {
    if encrypt.Some? then encrypt.value else config.encryptionEnabled
  }

  /**
   * With encryption off in the configuration, an explicit `encrypt=True`
   * still leaves the content in clear text although a key is set, while
   * the corrected `add_payload` stores the Fernet token.
   */
  method AddPayloadIgnoresExplicitEncrypt(config: CassetteConfig, password: string, salt: seq<bv8>,
                                          filename: string, content: string, fernet: (Key, string) -> string)
    returns (asWritten: Result<Payload>, corrected: Result<Payload>)
    requires 8 <= config.idLength <= 32 && !config.encryptionEnabled
    requires |password| >= 8 && |salt| == 16 && ValidFilename(filename)
    ensures asWritten == Ok(Payload(filename, content))
    ensures corrected == Ok(Payload(filename, fernet(Derived(password, salt), content)))
  {
    var engine := new Engine(Some(config));
    var _ := engine.SetEncryptionPassword(password, salt);
    asWritten := engine.AddPayload(true, filename, content, Some(true), fernet);
    corrected := engine.AddPayloadCorrected(true, filename, content, Some(true), fernet);
  }

  // ---------------------------------------------------------------------
  // Sealing and verification
  // ---------------------------------------------------------------------

  /** One entry of a cassette directory: `size` is `stat().st_size`. */
  datatype Entry = Entry(name: string, isFile: bool, size: nat, content: string)

  datatype SealInfo = SealInfo(sealed: bool, sealedAt: string, hash: Digest, fileCount: nat, totalSize: nat)

  /** The entries `seal_cassette` hashes: regular files whose suffix is `.json` or `.txt`. */
  predicate Hashed(e: Entry)
  {
    e.isFile && Suffix(e.name) in {".json", ".txt"}
  }

  /** The digests of the hashed entries, in listing order. */
  function Hashes(dir: seq<Entry>, sha: string -> Digest): (r: seq<Digest>)
  {
    if dir == [] then []
    else Hashes(dir[..|dir| - 1], sha) + (if Hashed(dir[|dir| - 1]) then [sha(dir[|dir| - 1].content)] else [])
  }

  function TotalSize(dir: seq<Entry>): nat
  {
    if dir == [] then 0
    else TotalSize(dir[..|dir| - 1]) + (if Hashed(dir[|dir| - 1]) then dir[|dir| - 1].size else 0)
  }

  /** `"".join(sorted(hash_list))` */
  function SealInput(hashes: seq<Digest>): string
  {
    Concat(SortBy(hashes, (h: Digest) => [h]))
  }

  function Concat(parts: seq<Digest>): (r: string)
    ensures |r| == 64 * |parts|
  {
    if parts == [] then [] else Concat(parts[..|parts| - 1]) + parts[|parts| - 1]
  }

  /** What `seal_cassette` returns for a listing, sealed at time `now`. */
  function SealOf(dir: seq<Entry>, now: string, sha: string -> Digest): SealInfo
  {
    var hs := Hashes(dir, sha);
    SealInfo(true, now, sha(SealInput(hs)), |hs|, TotalSize(dir))
  }

  /** `asdict(seal_info)` */
  function SealValue(info: SealInfo): Value
  {
    Dict(map["sealed" := Bool(info.sealed), "sealed_at" := Str(info.sealedAt), "hash" := Str(info.hash),
             "file_count" := Int(info.fileCount), "total_size" := Int(info.totalSize)])
  }

  /**
   * Writing `content` to the file `name`: an entry of that name is
   * overwritten where it stands, otherwise a new file is listed last.
   * `json.dump` writes ASCII, so the size is the length of the text.
   */
  function WriteFile(dir: seq<Entry>, name: string, content: string): seq<Entry>
  {
    if dir == [] then [Entry(name, true, |content|, content)]
    else if dir[0].name == name then [Entry(name, true, |content|, content)] + dir[1..]
    else [dir[0]] + WriteFile(dir[1..], name, content)
  }

  /**
   * `seal_cassette`: one pass over the listing collecting the digests,
   * the count and the total size of the hashed files, the digest of their
   * sorted concatenation, then `seal.json` written into the directory.
   */
  method SealCassette(dirExists: bool, dir: seq<Entry>, now: string, sha: string -> Digest, dump: Value -> string)
    returns (r: Result<SealInfo>, after: seq<Entry>)
    ensures !dirExists ==> r.Err? && after == dir
    ensures dirExists ==> r == Ok(SealOf(dir, now, sha)) && after == WriteFile(dir, "seal.json", dump(SealValue(r.value)))
  {
    if !dirExists {
      return Err(CassetteError(SealNoDirectory)), dir;
    }
    var hashList: seq<Digest> := [];
    var fileCount: nat := 0;
    var totalSize: nat := 0;
    for i := 0 to |dir|
      invariant hashList == Hashes(dir[..i], sha)
      invariant fileCount == |hashList| && totalSize == TotalSize(dir[..i])
    {
      assert dir[..i + 1][..i] == dir[..i];
      if Hashed(dir[i]) {
        hashList := hashList + [sha(dir[i].content)];
        fileCount := fileCount + 1;
        totalSize := totalSize + dir[i].size;
      }
    }
    assert dir[..|dir|] == dir;
    var info := SealInfo(true, now, sha(Concat(SortBy(hashList, (h: Digest) => [h]))), fileCount, totalSize);
    r := Ok(info);
    after := WriteFile(dir, "seal.json", dump(SealValue(info)));
  }

  /** The entry called `name`, the first one if the listing repeats it. */
  function Find(dir: seq<Entry>, name: string): (r: Option<Entry>)
    ensures r.Some? ==> r.value in dir && r.value.name == name
    ensures r.None? ==> forall e :: e in dir ==> e.name != name
  {
    if dir == [] then None else if dir[0].name == name then Some(dir[0]) else Find(dir[1..], name)
  }

  /** The stored hash `verify_cassette_integrity` compares against, if it gets that far. */
  function StoredHash(dir: seq<Entry>, load: string -> Result<Value>): Option<Value>
  {
    var seal := Find(dir, "seal.json");
    if seal.None? || !seal.value.isFile then None
    else
      var data := load(seal.value.content);
      if data.Err? || !data.value.Dict? then None
      else
        var original := Get(data.value.entries, "hash", Null);
        if !Truthy(original) then None else Some(original)
  }

  /**
   * `verify_cassette_integrity`: false without a readable seal holding a
   * hash; otherwise the cassette is sealed again (rewriting `seal.json`)
   * and the new hash is compared with the stored one.
   */
  method VerifyIntegrity(dir: seq<Entry>, now: string, sha: string -> Digest,
                         dump: Value -> string, load: string -> Result<Value>)
    returns (ok: bool, after: seq<Entry>)
    ensures StoredHash(dir, load).None? ==> !ok && after == dir
    ensures StoredHash(dir, load).Some? ==>
      && ok == (StoredHash(dir, load).value == Str(SealOf(dir, now, sha).hash))
      && after == WriteFile(dir, "seal.json", dump(SealValue(SealOf(dir, now, sha))))
  {
    var seal := Find(dir, "seal.json");
    if seal.None? || !seal.value.isFile {
      return false, dir;
    }
    var data := load(seal.value.content);
    if data.Err? || !data.value.Dict? {
      return false, dir;
    }
    var original := Get(data.value.entries, "hash", Null);
    if !Truthy(original) {
      return false, dir;
    }
    var current;
    current, after := SealCassette(true, dir, now, sha, dump);
    ok := original == Str(current.value.hash);
  }

  // ---------------------------------------------------------------------
  // Seal, then verify
  // ---------------------------------------------------------------------

  /** Writing a new file lists it last. */
  lemma WriteNewFile(dir: seq<Entry>, name: string, content: string)
    requires forall e :: e in dir ==> e.name != name
    ensures WriteFile(dir, name, content) == dir + [Entry(name, true, |content|, content)]
  {
    if dir != [] {
      WriteNewFile(dir[1..], name, content);
      assert dir == [dir[0]] + dir[1..];
    }
  }

  lemma HashesAppend(dir: seq<Entry>, e: Entry, sha: string -> Digest)
    ensures Hashes(dir + [e], sha) == Hashes(dir, sha) + (if Hashed(e) then [sha(e.content)] else [])
  {
    assert (dir + [e])[..|dir|] == dir;
  }

  lemma FindLast(dir: seq<Entry>, e: Entry)
    requires forall x :: x in dir ==> x.name != e.name
    ensures Find(dir + [e], e.name) == Some(e)
  {
    if dir != [] {
      assert (dir + [e])[1..] == dir[1..] + [e];
      FindLast(dir[1..], e);
    }
  }

  /** `seal.json` has the suffix `.json`. */
  lemma SealFileHashed(text: string)
    ensures Hashed(Entry("seal.json", true, |text|, text))
  {
    var name := "seal.json";
    var i := RFind(name, '.');
    assert name[4] == '.' && name[5] == 'j' && name[6] == 's' && name[7] == 'o' && name[8] == 'n';
    assert i == 4;
    assert name[4..] == ".json";
  }

  /** A seal file just added after the other entries is the one verification reads. */
  lemma StoredAfterWrite(dir: seq<Entry>, info: SealInfo, dump: Value -> string, load: string -> Result<Value>)
    requires forall e :: e in dir ==> e.name != "seal.json"
    requires load(dump(SealValue(info))) == Ok(SealValue(info))
    ensures StoredHash(WriteFile(dir, "seal.json", dump(SealValue(info))), load) == Some(Str(info.hash))
  {
    var text := dump(SealValue(info));
    WriteNewFile(dir, "seal.json", text);
    FindLast(dir, Entry("seal.json", true, |text|, text));
  }

  /**
   * Sealing a cassette that has no `seal.json` yet and verifying it right
   * away hashes a different text the second time: the new `seal.json` is
   * itself a `.json` file, so its digest joins the list. Verification
   * succeeds only if SHA-256 maps the two texts to the same digest.
   */
  lemma SealThenVerify(dir: seq<Entry>, now1: string, sha: string -> Digest,
                       dump: Value -> string, load: string -> Result<Value>)
    requires forall e :: e in dir ==> e.name != "seal.json"
    requires load(dump(SealValue(SealOf(dir, now1, sha)))) == Ok(SealValue(SealOf(dir, now1, sha)))
    ensures var sealed := WriteFile(dir, "seal.json", dump(SealValue(SealOf(dir, now1, sha))));
      && StoredHash(sealed, load) == Some(Str(SealOf(dir, now1, sha).hash))
      && |SealInput(Hashes(sealed, sha))| == |SealInput(Hashes(dir, sha))| + 64
      && SealInput(Hashes(sealed, sha)) != SealInput(Hashes(dir, sha))
  {
    var info := SealOf(dir, now1, sha);
    var text := dump(SealValue(info));
    var e := Entry("seal.json", true, |text|, text);
    StoredAfterWrite(dir, info, dump, load);
    WriteNewFile(dir, "seal.json", text);
    SealFileHashed(text);
    HashesAppend(dir, e, sha);
    assert |Hashes(dir + [e], sha)| == |Hashes(dir, sha)| + 1;
  }

  // ---------------------------------------------------------------------
  // Sealing without the seal file
  // ---------------------------------------------------------------------

  /** The files a seal should cover: the hashed files other than `seal.json` itself. */
  predicate HashedFixed(e: Entry)
  {
    Hashed(e) && e.name != "seal.json"
  }

  function HashesFixed(dir: seq<Entry>, sha: string -> Digest): seq<Digest>
  {
    if dir == [] then []
    else HashesFixed(dir[..|dir| - 1], sha) + (if HashedFixed(dir[|dir| - 1]) then [sha(dir[|dir| - 1].content)] else [])
  }

  function SealOfFixed(dir: seq<Entry>, now: string, sha: string -> Digest): SealInfo
  {
    var hs := HashesFixed(dir, sha);
    SealInfo(true, now, sha(SealInput(hs)), |hs|, TotalSizeFixed(dir))
  }

  function TotalSizeFixed(dir: seq<Entry>): nat
  {
    if dir == [] then 0
    else TotalSizeFixed(dir[..|dir| - 1]) + (if HashedFixed(dir[|dir| - 1]) then dir[|dir| - 1].size else 0)
  }

  /** Overwriting or adding `seal.json` leaves the covered files as they were. */
  lemma {:induction false} HashesFixedIgnoreSeal(dir: seq<Entry>, content: string, sha: string -> Digest)
    ensures HashesFixed(WriteFile(dir, "seal.json", content), sha) == HashesFixed(dir, sha)
    ensures TotalSizeFixed(WriteFile(dir, "seal.json", content)) == TotalSizeFixed(dir)
    decreases |dir|
  {
    if dir == [] {
      assert HashesFixed([Entry("seal.json", true, |content|, content)], sha) == [];
    } else {
      var w := WriteFile(dir, "seal.json", content);
      var rest := if dir[0].name == "seal.json" then dir[1..] else WriteFile(dir[1..], "seal.json", content);
      var first := if dir[0].name == "seal.json" then Entry("seal.json", true, |content|, content) else dir[0];
      assert w == [first] + rest;
      if dir[0].name != "seal.json" {
        HashesFixedIgnoreSeal(dir[1..], content, sha);
      }
      FrontFixed(first, rest, sha);
      FrontFixed(dir[0], dir[1..], sha);
      assert dir == [dir[0]] + dir[1..];
    }
  }

  /** The covered files of a listing are those of its first entry, then of the rest. */
  lemma {:induction false} FrontFixed(e: Entry, rest: seq<Entry>, sha: string -> Digest)
    ensures HashesFixed([e] + rest, sha) == (if HashedFixed(e) then [sha(e.content)] else []) + HashesFixed(rest, sha)
    ensures TotalSizeFixed([e] + rest) == (if HashedFixed(e) then e.size else 0) + TotalSizeFixed(rest)
    decreases |rest|
  {
    if rest != [] {
      var init := rest[..|rest| - 1];
      FrontFixed(e, init, sha);
      assert ([e] + rest)[..|rest|] == [e] + init;
    }
  }

  /**
   * With `seal.json` left out of the digest list, verifying right after
   * sealing compares the stored hash with the digest of the same text, so
   * it succeeds whatever the hash function.
   */
  lemma SealThenVerifyFixed(dir: seq<Entry>, now1: string, now2: string, sha: string -> Digest,
                            dump: Value -> string, load: string -> Result<Value>)
    requires forall e :: e in dir ==> e.name != "seal.json"
    requires load(dump(SealValue(SealOfFixed(dir, now1, sha)))) == Ok(SealValue(SealOfFixed(dir, now1, sha)))
    ensures var sealed := WriteFile(dir, "seal.json", dump(SealValue(SealOfFixed(dir, now1, sha))));
      && StoredHash(sealed, load) == Some(Str(SealOfFixed(dir, now1, sha).hash))
      && SealOfFixed(sealed, now2, sha).hash == SealOfFixed(dir, now1, sha).hash
  {
    var info := SealOfFixed(dir, now1, sha);
    StoredAfterWrite(dir, info, dump, load);
    HashesFixedIgnoreSeal(dir, dump(SealValue(info)), sha);
  }
}
