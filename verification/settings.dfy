/** The settings file of `cli/settings_store.cpp`. Encryption at rest is a pair of oracles; a
    platform without it is one whose oracles always answer None. */
module Settings {
  import opened Text
  import opened JsonCodec
  import opened JsonTokens
  import opened JsonDocument

  newtype Byte = n: int | 0 <= n < 256

  // ---- the hex codec --------------------------------------------------------------------

  function HexDigit(n: nat): (c: char)
    requires n < 16
  {
    if n < 10 then (('0' as int) + n) as char else (('a' as int) + n - 10) as char
  }

  function Nibble(c: char): Option<nat> {
    if '0' <= c <= '9' then Some((c as int) - ('0' as int))
    else if 'a' <= c <= 'f' then Some((c as int) - ('a' as int) + 10)
    else if 'A' <= c <= 'F' then Some((c as int) - ('A' as int) + 10)
    else None
  }

  function HexOf(b: Byte): string {
    [HexDigit((b as int) / 16), HexDigit((b as int) % 16)]
  }

  function Hex(data: seq<Byte>): string {
    if data == [] then "" else HexOf(data[0]) + Hex(data[1..])
  }

  function ByteOf(high: char, low: char): Option<Byte> {
    var h, l := Nibble(high), Nibble(low);
    if h.Some? && l.Some? && h.value < 16 && l.value < 16 then Some((16 * h.value + l.value) as Byte) else None
  }

  /** Pairs of hex digits; None on an odd length or a character that is no hex digit. */
  function Unhex(s: string): Option<seq<Byte>> {
    if s == "" then Some([])
    else if |s| == 1 then None
    else
      var b, rest := ByteOf(s[0], s[1]), Unhex(s[2..]);
      if b.Some? && rest.Some? then Some([b.value] + rest.value) else None
  }

  method HexEncode(data: seq<Byte>) returns (result: string)
    ensures result == Hex(data)
  {
    result := "";
    for index := 0 to |data|
      invariant result + Hex(data[index..]) == Hex(data)
    {
      assert data[index..][1..] == data[index + 1..];
      assert result + (HexOf(data[index]) + Hex(data[index + 1..]))
        == (result + HexOf(data[index])) + Hex(data[index + 1..]);
      result := result + HexOf(data[index]);
    }
  }

  /** `hex_decode` also refuses the empty text. */
  method HexDecode(hex: string) returns (data: Option<seq<Byte>>)
    ensures data == if hex == "" then None else Unhex(hex)
  {
    if hex == "" { return None; }
    OddIsRefused(hex);
    if |hex| % 2 != 0 { return None; }
    var bytes: seq<Byte> := [];
    hide Unhex, Behind, ByteOf;
    UnhexEnds(hex);
    var index := 0;
    while index < |hex|
      invariant index <= |hex| && index % 2 == 0
      invariant Unhex(hex) == Behind(bytes, Unhex(hex[index..]))
    {
      UnhexStep(hex, index, bytes);
      var b := ByteOf(hex[index], hex[index + 1]);
      if b.None? { return None; }
      bytes := bytes + [b.value];
      index := index + 2;
    }
    BehindNothing(bytes);
    return Some(bytes);
  }

  function Behind(bytes: seq<Byte>, rest: Option<seq<Byte>>): Option<seq<Byte>> {
    if rest.Some? then Some(bytes + rest.value) else None
  }

  lemma BehindNothing(bytes: seq<Byte>)
    ensures Behind(bytes, Some([])) == Some(bytes)
  {
    assert bytes + [] == bytes;
  }

  lemma UnhexEnds(hex: string)
    ensures Unhex(hex[|hex|..]) == Some([]) && Unhex(hex) == Behind([], Unhex(hex[0..]))
  {
    assert hex[0..] == hex;
    if Unhex(hex).Some? {
      assert [] + Unhex(hex).value == Unhex(hex).value;
    }
  }

  lemma UnhexStep(hex: string, index: nat, bytes: seq<Byte>)
    requires index + 1 < |hex|
    ensures var b := ByteOf(hex[index], hex[index + 1]);
      Behind(bytes, Unhex(hex[index..]))
        == if b.Some? then Behind(bytes + [b.value], Unhex(hex[index + 2..])) else None
  {
    var s := hex[index..];
    assert s[2..] == hex[index + 2..] && s[0] == hex[index] && s[1] == hex[index + 1];
    var b, rest := ByteOf(s[0], s[1]), Unhex(s[2..]);
    if b.Some? && rest.Some? {
      assert bytes + ([b.value] + rest.value) == (bytes + [b.value]) + rest.value;
    }
  }

  lemma {:induction false} OddIsRefused(s: string)
    ensures |s| % 2 != 0 ==> Unhex(s).None?
  {
    if |s| > 1 {
      OddIsRefused(s[2..]);
    }
  }

  lemma HexByteReadsBack(b: Byte)
    ensures ByteOf(HexOf(b)[0], HexOf(b)[1]) == Some(b)
  {
    var n := b as int;
    assert n == 16 * (n / 16) + n % 16 && n / 16 < 16;
    DigitReadsBack(n / 16);
    DigitReadsBack(n % 16);
  }

  lemma DigitReadsBack(n: nat)
    requires n < 16
    ensures Nibble(HexDigit(n)) == Some(n)
  {
  }

  /** Decoding what was encoded gives the same bytes. */
  lemma {:induction false} HexReadsBack(data: seq<Byte>)
    ensures Unhex(Hex(data)) == Some(data) && (data != [] ==> Hex(data) != "")
  {
    hide HexOf, ByteOf;
    if data != [] {
      HexByteReadsBack(data[0]);
      HexReadsBack(data[1..]);
      var s := Hex(data);
      HexWidth(data[0]);
      assert [data[0]] + data[1..] == data;
      assert s[0] == HexOf(data[0])[0] && s[1] == HexOf(data[0])[1] && s[2..] == Hex(data[1..]);
    }
  }

  lemma HexWidth(b: Byte)
    ensures |HexOf(b)| == 2
  {
  }

  // ---- the settings -----------------------------------------------------------------------

  datatype HostSettings = HostSettings(
    port: int, enableAi: bool, enableHardwareScan: bool, ollamaUrl: string, ollamaModel: string,
    ollamaNumCtx: int, apiToken: string)

  function Defaults(): HostSettings {
    HostSettings(30080, true, false, "http://127.0.0.1:11434", "llama3.2", 32768, "")
  }

  datatype Vault = Vault(protect: string -> Option<seq<Byte>>, unprotect: seq<Byte> -> Option<string>)

  predicate IsInt32(n: int) { -0x8000_0000 <= n <= 0x7FFF_FFFF }

  /** `static_cast<int32_t>`. */
  function ToInt32(n: int): int {
    (n + 0x8000_0000) % 0x1_0000_0000 - 0x8000_0000
  }

  function SecretMember(vault: Vault, field: string, value: string): Member {
    if value == "" then Member(field, JStr(""))
    else match vault.protect(value)
      case Some(data) => Member(field + "_dpapi_hex", JStr(Hex(data)))
      case None => Member(field, JStr(value))
  }

  function PublicMembers(s: HostSettings): seq<Member> {
    [Member("port", JInt(s.port)), Member("enable_ai", JBool(s.enableAi)),
      Member("enable_hardware_scan", JBool(s.enableHardwareScan))]
    + [Member("ollama_url", JStr(s.ollamaUrl)), Member("ollama_model", JStr(s.ollamaModel)),
      Member("ollama_num_ctx", JInt(s.ollamaNumCtx))]
  }

  function SettingsMembers(vault: Vault, s: HostSettings): seq<Member> {
    PublicMembers(s) + [SecretMember(vault, "api_token", s.apiToken)]
  }

  /** The content `save_settings` writes. */
  function Saved(vault: Vault, s: HostSettings): string {
    Print(JObj(SettingsMembers(vault, s)))
  }

  function Decrypted(vault: Vault, json: string, field: string): string {
    var hex := StringField(json, field + "_dpapi_hex", 0);
    if hex == "" then StringField(json, field, 0)
    else match Unhex(hex)
      case None => ""
      case Some(data) => vault.unprotect(data).GetOr("")
  }

  datatype LoadResult = Loaded(settings: HostSettings) | NotLoaded | Thrown

  function Number(r: IntResult, default: int): int {
    if r.Int? then ToInt32(r.value) else default
  }

  /** `load_settings` over the values `out` had before; `json` is the file's content, "" when
      there is none. */
  function LoadInto(vault: Vault, json: string, out: HostSettings): LoadResult {
    var port, numCtx := IntField(json, "port", 0), IntField(json, "ollama_num_ctx", 0);
    var url, model := StringField(json, "ollama_url", 0), StringField(json, "ollama_model", 0);
    if json == "" then NotLoaded
    else if port.OutOfRange? || numCtx.OutOfRange? then Thrown
    else Loaded(HostSettings(
      Number(port, out.port),
      BoolField(json, "enable_ai", 0).GetOr(out.enableAi),
      BoolField(json, "enable_hardware_scan", 0).GetOr(out.enableHardwareScan),
      if url != "" then url else out.ollamaUrl,
      if model != "" then model else out.ollamaModel,
      Number(numCtx, out.ollamaNumCtx),
      Decrypted(vault, json, "api_token")))
  }

  method LoadSettings(vault: Vault, json: string, before: HostSettings) returns (result: LoadResult)
    ensures result == LoadInto(vault, json, before)
  {
    hide StringField, BoolField, IntField;
    if json == "" { return NotLoaded; }
    var out := before;
    var port := ExtractJsonIntField(json, "port", 0);
    if port.OutOfRange? { return Thrown; }
    out := out.(port := Number(port, out.port));
    var flag := ExtractJsonBoolField(json, "enable_ai", 0);
    out := out.(enableAi := flag.GetOr(out.enableAi));
    flag := ExtractJsonBoolField(json, "enable_hardware_scan", 0);
    out := out.(enableHardwareScan := flag.GetOr(out.enableHardwareScan));
    var url := ExtractJsonStringField(json, "ollama_url", 0);
    if url != "" { out := out.(ollamaUrl := url); }
    var model := ExtractJsonStringField(json, "ollama_model", 0);
    if model != "" { out := out.(ollamaModel := model); }
    var numCtx := ExtractJsonIntField(json, "ollama_num_ctx", 0);
    if numCtx.OutOfRange? { return Thrown; }
    out := out.(ollamaNumCtx := Number(numCtx, out.ollamaNumCtx));
    return Loaded(out.(apiToken := Decrypted(vault, json, "api_token")));
  }

  // ---- reading back ------------------------------------------------------------------------

  lemma SettingsKeys()
    ensures IsKey("port") && IsKey("enable_ai") && IsKey("enable_hardware_scan") && IsKey("ollama_url")
    ensures IsKey("ollama_model") && IsKey("ollama_num_ctx")
  {
  }

  lemma SecretKeys()
    ensures IsKey("api_token") && IsKey("api_token_dpapi_hex") && "api_token" + "_dpapi_hex" == "api_token_dpapi_hex"
  {
  }

  lemma PublicLookup(s: HostSettings, key: string)
    ensures FirstInMembers(PublicMembers(s), key) ==
      if key == "port" then Some(JInt(s.port))
      else if key == "enable_ai" then Some(JBool(s.enableAi))
      else if key == "enable_hardware_scan" then Some(JBool(s.enableHardwareScan))
      else if key == "ollama_url" then Some(JStr(s.ollamaUrl))
      else if key == "ollama_model" then Some(JStr(s.ollamaModel))
      else if key == "ollama_num_ctx" then Some(JInt(s.ollamaNumCtx))
      else None
  {
    hide FirstInMembers;
    var a, b, c := Member("port", JInt(s.port)), Member("enable_ai", JBool(s.enableAi)),
      Member("enable_hardware_scan", JBool(s.enableHardwareScan));
    var d, e, f := Member("ollama_url", JStr(s.ollamaUrl)), Member("ollama_model", JStr(s.ollamaModel)),
      Member("ollama_num_ctx", JInt(s.ollamaNumCtx));
    FirstInBoth([a, b, c], [d, e, f], key);
    FirstInThree(a, b, c, key);
    FirstInThree(d, e, f, key);
    FirstInOne(a, key);
    FirstInOne(b, key);
    FirstInOne(c, key);
    FirstInOne(d, key);
    FirstInOne(e, key);
    FirstInOne(f, key);
  }

  /** The secret is the last member, under one of its two names. */
  lemma SettingsLookup(vault: Vault, s: HostSettings, key: string)
    ensures var secret := SecretMember(vault, "api_token", s.apiToken);
      FirstInMembers(SettingsMembers(vault, s), key) ==
        if FirstInMembers(PublicMembers(s), key).Some? then FirstInMembers(PublicMembers(s), key)
        else if key == secret.name then Some(secret.value)
        else None
  {
    hide FirstInMembers;
    var secret := SecretMember(vault, "api_token", s.apiToken);
    FirstInBoth(PublicMembers(s), [secret], key);
    FirstInOne(secret, key);
  }

  lemma SettingsRead(vault: Vault, s: HostSettings, key: string)
    requires IsInt32(s.port) && IsInt32(s.ollamaNumCtx) && IsKey(key)
    ensures StringField(Saved(vault, s), key, 0) == StringOf(FirstInMembers(SettingsMembers(vault, s), key))
    ensures BoolField(Saved(vault, s), key, 0) == BoolOf(FirstInMembers(SettingsMembers(vault, s), key))
    ensures IntField(Saved(vault, s), key, 0) == IntegerOf(FirstInMembers(SettingsMembers(vault, s), key))
  {
    hide StringField, BoolField, IntField, Print, FirstInMembers;
    SettingsKeys();
    SecretKeys();
    hide IsKey;
    ReadBack(JObj(SettingsMembers(vault, s)), key);
  }

  /** What an account reads of a secret that another account, or the same one, wrote. */
  function SecretRead(writer: Vault, reader: Vault, token: string): string {
    if token == "" then ""
    else match writer.protect(token)
      case None => token
      case Some(data) => if data == [] then "" else reader.unprotect(data).GetOr("")
  }

  /** The secret is written in the clear, or its protection is undone by the reader. */
  predicate SecretSurvives(writer: Vault, reader: Vault, token: string) {
    token == "" ||
    match writer.protect(token)
    case None => true
    case Some(data) => data != [] && reader.unprotect(data) == Some(token)
  }

  /** What is read of a saved secret; it is the secret if and only if it survives. */
  lemma SecretReadsBack(writer: Vault, reader: Vault, s: HostSettings)
    requires IsInt32(s.port) && IsInt32(s.ollamaNumCtx)
    ensures Decrypted(reader, Saved(writer, s), "api_token") == SecretRead(writer, reader, s.apiToken)
    ensures SecretRead(writer, reader, s.apiToken) == s.apiToken <==> SecretSurvives(writer, reader, s.apiToken)
  {
    hide StringField, BoolField, IntField, Saved, FirstInMembers, Hex, Unhex, SettingsMembers;
    SecretKeys();
    SettingsRead(writer, s, "api_token");
    SettingsRead(writer, s, "api_token_dpapi_hex");
    SettingsLookup(writer, s, "api_token");
    SettingsLookup(writer, s, "api_token_dpapi_hex");
    PublicLookup(s, "api_token");
    PublicLookup(s, "api_token_dpapi_hex");
    var data := writer.protect(s.apiToken);
    HexReadsBack([]);
    HexOfNothing();
    if data.Some? {
      HexReadsBack(data.value);
    }
  }

  lemma HexOfNothing()
    ensures Hex([]) == ""
  {
  }

  lemma SavedIsNotEmpty(vault: Vault, s: HostSettings)
    ensures Saved(vault, s) != ""
  {
  }

  /** Loading what was saved: each field comes back, except that an empty URL or model keeps the
      earlier value, and the secret is what decryption makes of it. */
  lemma LoadSaved(writer: Vault, reader: Vault, s: HostSettings, out: HostSettings)
    requires IsInt32(s.port) && IsInt32(s.ollamaNumCtx)
    ensures LoadInto(reader, Saved(writer, s), out) == Loaded(s.(
      ollamaUrl := if s.ollamaUrl != "" then s.ollamaUrl else out.ollamaUrl,
      ollamaModel := if s.ollamaModel != "" then s.ollamaModel else out.ollamaModel,
      apiToken := SecretRead(writer, reader, s.apiToken)))
  {
    hide StringField, BoolField, IntField, Saved, FirstInMembers, SettingsMembers, Decrypted, SecretRead;
    SettingsKeys();
    SecretReadsBack(writer, reader, s);
    SavedIsNotEmpty(writer, s);
    PublicLookup(s, "port");
    PublicLookup(s, "enable_ai");
    PublicLookup(s, "enable_hardware_scan");
    PublicLookup(s, "ollama_url");
    PublicLookup(s, "ollama_model");
    PublicLookup(s, "ollama_num_ctx");
    PublicRead(writer, s, "port");
    PublicRead(writer, s, "enable_ai");
    PublicRead(writer, s, "enable_hardware_scan");
    PublicRead(writer, s, "ollama_url");
    PublicRead(writer, s, "ollama_model");
    PublicRead(writer, s, "ollama_num_ctx");
  }

  lemma PublicRead(vault: Vault, s: HostSettings, key: string)
    requires IsInt32(s.port) && IsInt32(s.ollamaNumCtx) && IsKey(key)
    requires FirstInMembers(PublicMembers(s), key).Some?
    ensures StringField(Saved(vault, s), key, 0) == StringOf(FirstInMembers(PublicMembers(s), key))
    ensures BoolField(Saved(vault, s), key, 0) == BoolOf(FirstInMembers(PublicMembers(s), key))
    ensures IntField(Saved(vault, s), key, 0) == IntegerOf(FirstInMembers(PublicMembers(s), key))
  {
    hide StringField, BoolField, IntField, Saved, FirstInMembers, SettingsMembers;
    SettingsRead(vault, s, key);
    SettingsLookup(vault, s, key);
  }

  /** Saved settings are restored unchanged if and only if an empty URL or model does not meet a
      non-empty earlier value, and the secret survives. */
  lemma SettingsSurvive(writer: Vault, reader: Vault, s: HostSettings, out: HostSettings)
    requires IsInt32(s.port) && IsInt32(s.ollamaNumCtx)
    ensures LoadInto(reader, Saved(writer, s), out) == Loaded(s)
      <==> ((s.ollamaUrl != "" || out.ollamaUrl == "") && (s.ollamaModel != "" || out.ollamaModel == "")
        && SecretSurvives(writer, reader, s.apiToken))
  {
    hide LoadInto, Saved, Decrypted, SecretRead;
    LoadSaved(writer, reader, s, out);
    SecretReadsBack(writer, reader, s);
  }

  // ---- changing settings at run time --------------------------------------------------------

  /** The fields the running host owns. */
  datatype HostConfig = HostConfig(enableAi: bool, enableHardwareScan: bool, ollamaUrl: string, ollamaModel: string,
    ollamaNumCtx: int)

  function Overlay(s: HostSettings, c: HostConfig): HostSettings {
    s.(enableAi := c.enableAi, enableHardwareScan := c.enableHardwareScan, ollamaUrl := c.ollamaUrl,
       ollamaModel := c.ollamaModel, ollamaNumCtx := c.ollamaNumCtx)
  }

  /** `persist_current_settings_locked`: load, overlay, save. */
  function Persisted(vault: Vault, json: string, c: HostConfig): Option<string> {
    match LoadInto(vault, json, Defaults())
    case Loaded(s) => Some(Saved(vault, Overlay(s, c)))
    case NotLoaded => Some(Saved(vault, Overlay(Defaults(), c)))
    case Thrown => None
  }

  /** An account that can undo its own protection. */
  ghost predicate Coherent(vault: Vault) {
    forall token: string :: SecretSurvives(vault, vault, token)
  }

  /** A change made at run time, over a file that this or another account wrote, keeps the port
      and writes the secret as it was read. So the secret later read from the new file is the one
      on disk before if and only if it survived the first reading. */
  lemma PersistCarriesOver(writer: Vault, host: Vault, s: HostSettings, c: HostConfig)
    requires IsInt32(s.port) && IsInt32(s.ollamaNumCtx) && IsInt32(c.ollamaNumCtx)
    ensures var file := Persisted(host, Saved(writer, s), c);
      && file == Some(Saved(host, Overlay(s, c).(apiToken := SecretRead(writer, host, s.apiToken))))
      && (Coherent(host) ==>
        (Decrypted(host, file.value, "api_token") == s.apiToken <==> SecretSurvives(writer, host, s.apiToken)))
  {
    hide LoadInto, Saved, Decrypted, SecretRead, SecretSurvives;
    LoadSaved(writer, host, s, Defaults());
    SecretReadsBack(writer, host, s);
    var token := SecretRead(writer, host, s.apiToken);
    SecretReadsBack(host, host, Overlay(s, c).(apiToken := token));
    if Coherent(host) {
      assert SecretSurvives(host, host, token);
    }
  }

  /** A file of another account: after one change made here, the secret is gone for everyone,
      its writer included. */
  lemma ForeignSecretIsLost(writer: Vault, host: Vault, reader: Vault, s: HostSettings, c: HostConfig)
    requires IsInt32(s.port) && IsInt32(s.ollamaNumCtx) && IsInt32(c.ollamaNumCtx)
    requires s.apiToken != "" && writer.protect(s.apiToken).Some?
    requires host.unprotect(writer.protect(s.apiToken).value).None?
    ensures var file := Persisted(host, Saved(writer, s), c);
      file.Some? && Decrypted(reader, file.value, "api_token") == ""
  {
    hide LoadInto, Saved, Decrypted;
    LoadSaved(writer, host, s, Defaults());
    SecretReadsBack(writer, host, s);
    SecretReadsBack(host, reader, Overlay(s, c).(apiToken := ""));
  }
}
