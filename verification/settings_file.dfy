/** What stands in a settings file after a change at run time, as the readers find it, and what
    loading takes from a file that lacks a field. */
module SettingsFile {
  import opened Text
  import opened JsonCodec
  import opened JsonTokens
  import opened JsonDocument
  import opened Settings

  /** The seven settings under their names; a protected secret is not printed in the clear. */
  lemma SavedFields(vault: Vault, s: HostSettings)
    requires IsInt32(s.port) && IsInt32(s.ollamaNumCtx)
    ensures var file := Saved(vault, s);
      && IntField(file, "port", 0) == Int(s.port)
      && BoolField(file, "enable_ai", 0) == Some(s.enableAi)
      && BoolField(file, "enable_hardware_scan", 0) == Some(s.enableHardwareScan)
      && StringField(file, "ollama_url", 0) == s.ollamaUrl
      && StringField(file, "ollama_model", 0) == s.ollamaModel
      && IntField(file, "ollama_num_ctx", 0) == Int(s.ollamaNumCtx)
  {
    hide StringField, BoolField, IntField, Saved, FirstInMembers, SettingsMembers;
    SettingsKeys();
    PublicLookup(s, "port");
    PublicLookup(s, "enable_ai");
    PublicLookup(s, "enable_hardware_scan");
    PublicLookup(s, "ollama_url");
    PublicLookup(s, "ollama_model");
    PublicLookup(s, "ollama_num_ctx");
    PublicRead(vault, s, "port");
    PublicRead(vault, s, "enable_ai");
    PublicRead(vault, s, "enable_hardware_scan");
    PublicRead(vault, s, "ollama_url");
    PublicRead(vault, s, "ollama_model");
    PublicRead(vault, s, "ollama_num_ctx");
  }

  lemma SavedSecret(vault: Vault, s: HostSettings)
    requires IsInt32(s.port) && IsInt32(s.ollamaNumCtx)
    ensures var file, data := Saved(vault, s), vault.protect(s.apiToken);
      if s.apiToken == "" || data.None?
      then StringField(file, "api_token", 0) == s.apiToken && StringField(file, "api_token_dpapi_hex", 0) == ""
      else StringField(file, "api_token", 0) == "" && StringField(file, "api_token_dpapi_hex", 0) == Hex(data.value)
  {
    hide StringField, BoolField, IntField, Saved, FirstInMembers, Hex, SettingsMembers;
    SecretKeys();
    SettingsRead(vault, s, "api_token");
    SettingsRead(vault, s, "api_token_dpapi_hex");
    SettingsLookup(vault, s, "api_token");
    SettingsLookup(vault, s, "api_token_dpapi_hex");
    PublicLookup(s, "api_token");
    PublicLookup(s, "api_token_dpapi_hex");
  }

  /** The fields of `c`, and this port, stand in the file. */
  ghost predicate Holds(file: string, port: int, c: HostConfig) {
    && IntField(file, "port", 0) == Int(port)
    && BoolField(file, "enable_ai", 0) == Some(c.enableAi)
    && BoolField(file, "enable_hardware_scan", 0) == Some(c.enableHardwareScan)
    && StringField(file, "ollama_url", 0) == c.ollamaUrl
    && StringField(file, "ollama_model", 0) == c.ollamaModel
    && IntField(file, "ollama_num_ctx", 0) == Int(c.ollamaNumCtx)
  }

  /** A change over a file that this or another account wrote: the port on disk stays, and
      everything the running host owns is what it has now. */
  lemma ChangeKeepsPort(writer: Vault, host: Vault, s: HostSettings, c: HostConfig)
    requires IsInt32(s.port) && IsInt32(s.ollamaNumCtx) && IsInt32(c.ollamaNumCtx)
    ensures var file := Persisted(host, Saved(writer, s), c);
      file.Some? && Holds(file.value, s.port, c)
  {
    hide LoadInto, Saved, SecretRead, StringField, BoolField, IntField;
    LoadSaved(writer, host, s, Defaults());
    PersistCarriesOver(writer, host, s, c);
    SavedFields(host, Overlay(s, c).(apiToken := SecretRead(writer, host, s.apiToken)));
  }

  /** The first change, with no file yet: the port is 30080 and there is no secret. */
  lemma FirstChangeWritesDefaults(host: Vault, c: HostConfig)
    requires IsInt32(c.ollamaNumCtx)
    ensures var file := Persisted(host, "", c);
      && file.Some? && Holds(file.value, 30080, c)
      && StringField(file.value, "api_token", 0) == "" && StringField(file.value, "api_token_dpapi_hex", 0) == ""
  {
    hide Saved, StringField, BoolField, IntField;
    var s := Overlay(Defaults(), c);
    SavedFields(host, s);
    SavedSecret(host, s);
  }

  /** What a host that has never been configured starts with. */
  lemma DefaultsAreRead(vault: Vault)
    ensures Holds(Saved(vault, Defaults()), 30080,
      HostConfig(true, false, "http://127.0.0.1:11434", "llama3.2", 32768))
    ensures Defaults().apiToken == ""
  {
    hide Saved, StringField, BoolField, IntField;
    SavedFields(vault, Defaults());
  }

  /** Over any text whatever: a port read from it is kept up to 32 bits, one that is missing becomes
      30080, and a number beyond 64 bits stops the change before anything is written. */
  lemma ChangeOverAnyFile(host: Vault, json: string, c: HostConfig)
    requires json != "" && IsInt32(c.ollamaNumCtx)
    ensures var file, port := Persisted(host, json, c), IntField(json, "port", 0);
      && (file.None? <==> port.OutOfRange? || IntField(json, "ollama_num_ctx", 0).OutOfRange?)
      && (file.Some? ==> exists kept: int ::
        && IsInt32(kept) && Holds(file.value, kept, c)
        && (if port.Int? then (kept - port.value) % 0x1_0000_0000 == 0 else kept == 30080))
  {
    hide Saved, StringField, BoolField, IntField, Decrypted;
    var loaded := LoadInto(host, json, Defaults());
    if loaded.Loaded? {
      var kept := loaded.settings.port;
      var port := IntField(json, "port", 0);
      if port.Int? {
        WrapsAround(port.value);
      }
      SavedFields(host, Overlay(loaded.settings, c));
      assert Holds(Saved(host, Overlay(loaded.settings, c)), kept, c);
    }
  }

  lemma WrapsAround(n: int)
    ensures IsInt32(ToInt32(n)) && (ToInt32(n) - n) % 0x1_0000_0000 == 0
    ensures IsInt32(n) ==> ToInt32(n) == n
  {
    var q := (n + 0x8000_0000) / 0x1_0000_0000;
    assert ToInt32(n) - n == -q * 0x1_0000_0000;
    assert (-q * 0x1_0000_0000) % 0x1_0000_0000 == 0;
  }

  /** An object without fields leaves every earlier value but the secret, which it blanks. */
  lemma MissingFieldsKeepEarlier(vault: Vault, before: HostSettings)
    ensures LoadInto(vault, Print(JObj([])), before) == Loaded(before.(apiToken := ""))
    ensures LoadInto(vault, "", before) == NotLoaded
  {
    hide StringField, BoolField, IntField, Print;
    SettingsKeys();
    SecretKeys();
    NothingReads("port");
    NothingReads("enable_ai");
    NothingReads("enable_hardware_scan");
    NothingReads("ollama_url");
    NothingReads("ollama_model");
    NothingReads("ollama_num_ctx");
    NothingReads("api_token");
    NothingReads("api_token_dpapi_hex");
    assert Print(JObj([])) != "" by {
      PrintsBraces();
    }
  }

  lemma PrintsBraces()
    ensures Print(JObj([])) == "{}"
  {
  }

  lemma NothingReads(key: string)
    requires IsKey(key)
    ensures var file := Print(JObj([]));
      && StringField(file, key, 0) == "" && BoolField(file, key, 0) == None && IntField(file, key, 0) == NoInt
  {
    hide StringField, BoolField, IntField, Print, IsKey;
    ReadBack(JObj([]), key);
    FirstInMembersOfNone(key);
  }

  lemma FirstInMembersOfNone(key: string)
    ensures FirstInMembers([], key) == None
  {
  }

  /** A byte is two lower-case hex digits, and either case is read back. */
  lemma HexDigitsAre(high: nat, low: nat)
    requires high < 16 && low < 16
    ensures Hex([(16 * high + low) as Byte]) == ["0123456789abcdef"[high], "0123456789abcdef"[low]]
    ensures Unhex(["0123456789ABCDEF"[high], "0123456789ABCDEF"[low]]) == Some([(16 * high + low) as Byte])
    ensures Unhex(["0123456789abcdef"[high], "0123456789abcdef"[low]]) == Some([(16 * high + low) as Byte])
  {
    hide Unhex, Hex, HexDigit, Nibble;
    DigitIs(high);
    DigitIs(low);
    var b := (16 * high + low) as Byte;
    OneByte(b);
    Halves(b, high, low);
    PairIs("0123456789ABCDEF"[high], "0123456789ABCDEF"[low], high, low);
    PairIs("0123456789abcdef"[high], "0123456789abcdef"[low], high, low);
  }

  lemma Halves(b: Byte, high: nat, low: nat)
    requires high < 16 && low < 16 && b as int == 16 * high + low
    ensures HexOf(b) == [HexDigit(high), HexDigit(low)]
  {
    hide HexDigit;
    assert (b as int) / 16 == high && (b as int) % 16 == low;
  }

  lemma PairIs(c: char, d: char, high: nat, low: nat)
    requires high < 16 && low < 16 && Nibble(c) == Some(high) && Nibble(d) == Some(low)
    ensures Unhex([c, d]) == Some([(16 * high + low) as Byte])
  {
    hide Unhex, Nibble;
    OnePair(c, d);
  }

  lemma OneByte(b: Byte)
    ensures Hex([b]) == HexOf(b)
  {
    assert [b][1..] == [];
    assert Hex([]) == "";
  }

  lemma OnePair(high: char, low: char)
    ensures Unhex([high, low]) == match ByteOf(high, low) case Some(b) => Some([b]) case None => None
  {
    assert [high, low][2..] == "";
    assert Unhex("") == Some([]);
    var b := ByteOf(high, low);
    if b.Some? {
      assert [b.value] + [] == [b.value];
    }
  }

  lemma DigitIs(n: nat)
    requires n < 16
    ensures HexDigit(n) == "0123456789abcdef"[n]
    ensures Nibble("0123456789abcdef"[n]) == Some(n) && Nibble("0123456789ABCDEF"[n]) == Some(n)
  {
  }

  /** Any other character refuses the text. */
  lemma OtherDigitsAreRefused(s: string, i: nat)
    requires i < |s| && s[i] !in "0123456789abcdefABCDEF"
    ensures Unhex(s) == None
    decreases |s|
  {
    if |s| > 1 {
      if i < 2 {
        DigitIsListed(s[i]);
      } else {
        OtherDigitsAreRefused(s[2..], i - 2);
      }
    }
  }

  lemma DigitIsListed(c: char)
    ensures Nibble(c).Some? ==> c in "0123456789abcdefABCDEF"
  {
    var digits := "0123456789abcdefABCDEF";
    if '0' <= c <= '9' {
      assert digits[(c as int) - ('0' as int)] == c;
    } else if 'a' <= c <= 'f' {
      assert digits[(c as int) - ('a' as int) + 10] == c;
    } else if 'A' <= c <= 'F' {
      assert digits[(c as int) - ('A' as int) + 16] == c;
    }
  }
}
