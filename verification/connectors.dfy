/** The connector registry of `src/net/connector.cpp`, and saving and loading it as in
    `cli/droidcli.cpp`. */
module Connectors {
  import opened Text
  import opened JsonCodec
  import opened JsonTokens
  import opened JsonDocument
  import opened BraceWalker

  datatype Connector = Connector(
    id: string, kind: string, baseUrl: string, launchCmd: string, workDir: string,
    capabilities: seq<string>, enabled: bool)

  predicate IsKind(kind: string) { kind == "http_peer" || kind == "launched_process" }

  // ---- the registry -----------------------------------------------------------------

  function IndexOf(cs: seq<Connector>, id: string): (r: Option<nat>)
    ensures r.Some? ==> r.value < |cs| && cs[r.value].id == id && forall k | 0 <= k < r.value :: cs[k].id != id
    ensures r.None? ==> forall k | 0 <= k < |cs| :: cs[k].id != id
  {
    if cs == [] then None
    else if cs[0].id == id then Some(0)
    else match IndexOf(cs[1..], id)
      case None => None
      case Some(i) => Some(i + 1)
  }

  function Registered(cs: seq<Connector>, c: Connector): seq<Connector> {
    if c.id == "" || c.kind == "" then cs
    else match IndexOf(cs, c.id)
      case Some(i) => cs[i := c]
      case None => cs + [c]
  }

  function Unregistered(cs: seq<Connector>, id: string): seq<Connector> {
    match IndexOf(cs, id)
    case Some(i) => cs[..i] + cs[i + 1..]
    case None => cs
  }

  class ConnectorRegistry {
    var connectors: seq<Connector>

    constructor ()
      ensures connectors == []
    {
      connectors := [];
    }

    method RegisterConnector(connector: Connector)
      modifies this
      ensures connectors == Registered(old(connectors), connector)
    {
      if connector.id == "" || connector.kind == "" { return; }
      for i := 0 to |connectors|
        invariant connectors == old(connectors)
        invariant forall k | 0 <= k < i :: connectors[k].id != connector.id
      {
        if connectors[i].id == connector.id {
          connectors := connectors[i := connector];
          return;
        }
      }
      connectors := connectors + [connector];
    }

    method UnregisterConnector(id: string) returns (removed: bool)
      modifies this
      ensures connectors == Unregistered(old(connectors), id)
      ensures removed <==> exists k :: 0 <= k < |old(connectors)| && old(connectors)[k].id == id
    {
      for i := 0 to |connectors|
        invariant connectors == old(connectors)
        invariant forall k | 0 <= k < i :: connectors[k].id != id
      {
        if connectors[i].id == id {
          connectors := connectors[..i] + connectors[i + 1..];
          return true;
        }
      }
      return false;
    }

    method FindConnector(id: string) returns (found: Option<Connector>)
      ensures found == match IndexOf(connectors, id) case None => None case Some(i) => Some(connectors[i])
    {
      for i := 0 to |connectors|
        invariant forall k | 0 <= k < i :: connectors[k].id != id
      {
        if connectors[i].id == id { return Some(connectors[i]); }
      }
      return None;
    }

    /** `load_connectors_from_config`: the content of the file, "" when it cannot be read. */
    method LoadConnectors(content: string)
      modifies this
      ensures connectors == Loaded(old(connectors), ObjectArray(content, "connectors"))
    {
      var objects := ExtractJsonObjectArray(content, "connectors");
      for i := 0 to |objects|
        invariant Loaded(connectors, objects[i..]) == Loaded(old(connectors), objects)
      {
        assert objects[i..][1..] == objects[i + 1..];
        var parsed := ParseConnectorFromJson(objects[i]);
        if parsed.Parsed? {
          RegisterConnector(parsed.connector);
        }
      }
    }
  }

  // ---- reading a connector ---------------------------------------------------------------

  datatype ParseResult = Parsed(connector: Connector) | Rejected(error: string)

  function ParseConnector(json: string): ParseResult {
    var id, kind := StringField(json, "id", 0), StringField(json, "kind", 0);
    if id == "" || kind == "" then Rejected("Connector requires id and kind.")
    else if !IsKind(kind) then Rejected("Connector kind must be http_peer or launched_process.")
    else
      var capability := StringField(json, "capabilities", 0);
      Parsed(Connector(id, kind, StringField(json, "base_url", 0), StringField(json, "launch_cmd", 0),
        StringField(json, "work_dir", 0), if capability != "" then [capability] else [],
        BoolField(json, "enabled", 0).GetOr(true)))
  }

  method ParseConnectorFromJson(json: string) returns (result: ParseResult)
    ensures result == ParseConnector(json)
  {
    hide StringField, BoolField;
    var id := ExtractJsonStringField(json, "id", 0);
    var kind := ExtractJsonStringField(json, "kind", 0);
    if id == "" || kind == "" { return Rejected("Connector requires id and kind."); }
    if kind != "http_peer" && kind != "launched_process" {
      return Rejected("Connector kind must be http_peer or launched_process.");
    }
    var baseUrl := ExtractJsonStringField(json, "base_url", 0);
    var launchCmd := ExtractJsonStringField(json, "launch_cmd", 0);
    var workDir := ExtractJsonStringField(json, "work_dir", 0);
    var enabled := ExtractJsonBoolField(json, "enabled", 0);
    var capability := ExtractJsonStringField(json, "capabilities", 0);
    var capabilities := if capability != "" then [capability] else [];
    return Parsed(Connector(id, kind, baseUrl, launchCmd, workDir, capabilities, enabled.GetOr(true)));
  }

  /** Each parsed object is registered in turn; invalid ones are skipped. */
  function Loaded(cs: seq<Connector>, objects: seq<string>): seq<Connector>
    decreases |objects|
  {
    if objects == [] then cs
    else
      var parsed := ParseConnector(objects[0]);
      Loaded(if parsed.Parsed? then Registered(cs, parsed.connector) else cs, objects[1..])
  }

  // ---- printing -----------------------------------------------------------------------------

  function Texts(values: seq<string>): (r: seq<Json>)
    ensures |r| == |values| && forall i | 0 <= i < |values| :: r[i] == JStr(values[i])
  {
    seq(|values|, i requires 0 <= i < |values| => JStr(values[i]))
  }

  function ConnectorMembers(c: Connector): seq<Member> {
    [Member("id", JStr(c.id)), Member("kind", JStr(c.kind)), Member("base_url", JStr(c.baseUrl)),
     Member("launch_cmd", JStr(c.launchCmd)), Member("work_dir", JStr(c.workDir)), Member("enabled", JBool(c.enabled)),
     Member("capabilities", JArr(Texts(c.capabilities)))]
  }

  function ConnectorObject(c: Connector): Json { JObj(ConnectorMembers(c)) }

  function ConnectorObjects(cs: seq<Connector>): (r: seq<Json>)
    ensures |r| == |cs| && forall i | 0 <= i < |cs| :: r[i] == ConnectorObject(cs[i])
  {
    seq(|cs|, i requires 0 <= i < |cs| => ConnectorObject(cs[i]))
  }

  function ListMembers(cs: seq<Connector>): seq<Member> {
    [Member("ok", JBool(true)), Member("connectors", JArr(ConnectorObjects(cs)))]
  }

  /** `build_connectors_json`: the list is printed without an opening brace. */
  function ConnectorsText(cs: seq<Connector>): string {
    PrintMembers(ListMembers(cs)) + "}"
  }

  method BuildConnectorsJson(cs: seq<Connector>) returns (text: string)
    ensures text == ConnectorsText(cs)
  {
    ListText(cs);
    hide PrintItems, PrintMembers;
    var items := StreamItems(ConnectorObjects(cs));
    return JsonBoolField("ok", true) + ",\"connectors\":[" + (items + "]}");
  }

  lemma ListText(cs: seq<Connector>)
    ensures ConnectorsText(cs)
      == JsonBoolField("ok", true) + ",\"connectors\":[" + (PrintItems(ConnectorObjects(cs)) + "]}")
  {
    hide PrintItems;
    var list := Member("connectors", JArr(ConnectorObjects(cs)));
    var members := ListMembers(cs);
    assert members[1..] == [list];
    assert PrintMembers([list]) == Needle("connectors") + ("[" + PrintItems(ConnectorObjects(cs)) + "]");
    assert PrintMembers(members) == JsonBoolField("ok", true) + "," + PrintMembers([list]);
    assert ",\"connectors\":[" == "," + (Needle("connectors") + "[") && "]}" == "]" + "}";
  }

  lemma ConnectorKeys()
    ensures IsKey("id") && IsKey("kind") && IsKey("base_url") && IsKey("launch_cmd") && IsKey("work_dir")
    ensures IsKey("enabled") && IsKey("capabilities") && IsKey("ok") && IsKey("connectors")
  {
  }

  lemma ConnectorIsProper(c: Connector)
    ensures Proper(ConnectorObject(c))
  {
    ConnectorKeys();
    hide IsKey;
    assert Proper(JArr(Texts(c.capabilities)));
  }

  lemma ConnectorKeysDiffer(c: Connector, i: nat, j: nat)
    requires i < j < 7
    ensures ConnectorMembers(c)[i].name != ConnectorMembers(c)[j].name
    ensures FirstMember(ConnectorMembers(c)[i].value, ConnectorMembers(c)[j].name).None?
  {
    ScalarHasNoMember(ConnectorMembers(c)[i].value, ConnectorMembers(c)[j].name);
  }

  lemma ScalarHasNoMember(v: Json, key: string)
    requires v.JStr? || v.JBool?
    ensures FirstMember(v, key).None?
  {
  }

  lemma ConnectorFieldReadsBack(c: Connector, i: nat)
    requires i < 7
    ensures var m := ConnectorMembers(c)[i];
      && StringField(Print(ConnectorObject(c)), m.name, 0) == StringOf(Some(m.value))
      && BoolField(Print(ConnectorObject(c)), m.name, 0) == BoolOf(Some(m.value))
  {
    ConnectorIsProper(c);
    var members := ConnectorMembers(c);
    forall j | 0 <= j < i
      ensures members[j].name != members[i].name && FirstMember(members[j].value, members[i].name).None?
    {
      ConnectorKeysDiffer(c, j, i);
    }
    MemberAt(members, i);
    ReadBack(ConnectorObject(c), members[i].name);
  }

  /** A printed connector reads back with every field but its capabilities, which are written
      as an array and read as a string; it is accepted exactly when id and kind are proper. */
  lemma ConnectorReadsBack(c: Connector)
    ensures ParseConnector(Print(ConnectorObject(c))).Parsed? <==> c.id != "" && IsKind(c.kind)
    ensures c.id != "" && IsKind(c.kind) ==> ParseConnector(Print(ConnectorObject(c))) == Parsed(c.(capabilities := []))
  {
    hide StringField, BoolField, Print, ConnectorObject;
    ConnectorFieldReadsBack(c, 0);
    ConnectorFieldReadsBack(c, 1);
    ConnectorFieldReadsBack(c, 2);
    ConnectorFieldReadsBack(c, 3);
    ConnectorFieldReadsBack(c, 4);
    ConnectorFieldReadsBack(c, 5);
    ConnectorFieldReadsBack(c, 6);
  }

  // ---- reachable registries -----------------------------------------------------------------

  /** Ids are distinct and every connector has an id and a known kind. */
  predicate Sound(cs: seq<Connector>) {
    && (forall i, j | 0 <= i < j < |cs| :: cs[i].id != cs[j].id)
    && (forall i | 0 <= i < |cs| :: cs[i].id != "" && IsKind(cs[i].kind))
  }

  /** Registering any accepted text, loading any text and unregistering any id keep the registry
      sound; it starts empty. */
  lemma RegisteringKeepsSound(cs: seq<Connector>, json: string, id: string)
    requires Sound(cs)
    ensures ParseConnector(json).Parsed? ==> Sound(Registered(cs, ParseConnector(json).connector))
    ensures Sound(Unregistered(cs, id))
    ensures Sound([])
  {
    hide StringField, BoolField, IsKind;
    KindIsText();
    if ParseConnector(json).Parsed? {
      RegisterKeepsSound(cs, ParseConnector(json).connector);
    }
    UnregisterKeepsSound(cs, id);
  }

  lemma RegisterKeepsSound(cs: seq<Connector>, c: Connector)
    requires Sound(cs) && c.id != "" && IsKind(c.kind)
    ensures Sound(Registered(cs, c))
  {
    hide IsKind;
    var at := IndexOf(cs, c.id);
    if at.Some? {
      var us := cs[at.value := c];
      assert forall k | 0 <= k < |us| :: us[k].id == cs[k].id;
    }
  }

  lemma UnregisterKeepsSound(cs: seq<Connector>, id: string)
    requires Sound(cs)
    ensures Sound(Unregistered(cs, id))
  {
    hide IsKind;
    var at := IndexOf(cs, id);
    if at.Some? {
      var us := cs[..at.value] + cs[at.value + 1..];
      assert forall k | 0 <= k < |us| :: us[k] == cs[if k < at.value then k else k + 1];
    }
  }

  lemma KindIsText()
    ensures !IsKind("")
  {
  }

  lemma {:induction false} LoadingKeepsSound(cs: seq<Connector>, objects: seq<string>)
    requires Sound(cs)
    ensures Sound(Loaded(cs, objects))
    decreases |objects|
  {
    hide Sound, ParseConnector, Registered;
    if objects != [] {
      RegisteringKeepsSound(cs, objects[0], "");
      var parsed := ParseConnector(objects[0]);
      LoadingKeepsSound(if parsed.Parsed? then Registered(cs, parsed.connector) else cs, objects[1..]);
    }
  }

  // ---- save and load ------------------------------------------------------------------------

  function Bare(cs: seq<Connector>): (r: seq<Connector>)
    ensures |r| == |cs| && forall i | 0 <= i < |cs| :: r[i] == cs[i].(capabilities := [])
  {
    seq(|cs|, i requires 0 <= i < |cs| => cs[i].(capabilities := []))
  }

  lemma {:induction false} LoadPrinted(done: seq<Connector>, cs: seq<Connector>)
    requires Sound(done + cs)
    ensures Loaded(Bare(done), PrintAll(ConnectorObjects(cs))) == Bare(done + cs)
    decreases |cs|
  {
    hide Print, ConnectorObject, ParseConnector, IsKind;
    if cs == [] {
      assert done + cs == done;
    } else {
      var c := cs[0];
      ConnectorReadsBack(c);
      assert (done + cs)[|done|] == c;
      forall i | 0 <= i < |done| ensures done[i].id != c.id {
        assert (done + cs)[i] == done[i];
      }
      HasKind(c);
      assert IndexOf(Bare(done), c.id).None?;
      assert Bare(done) + [c.(capabilities := [])] == Bare(done + [c]);
      assert (done + [c]) + cs[1..] == done + cs;
      LoadPrinted(done + [c], cs[1..]);
      assert PrintAll(ConnectorObjects(cs))[1..] == PrintAll(ConnectorObjects(cs[1..]));
    }
  }

  lemma HasKind(c: Connector)
    ensures IsKind(c.kind) ==> c.kind != ""
  {
  }

  lemma ListIsProper(cs: seq<Connector>)
    ensures ProperMembers(ListMembers(cs)) && FirstMention(ListMembers(cs), 1)
  {
    ConnectorKeys();
    hide IsKey;
    forall i | 0 <= i < |cs| ensures Proper(ConnectorObjects(cs)[i]) {
      ConnectorIsProper(cs[i]);
    }
  }

  lemma ListIsObject(cs: seq<Connector>)
    ensures Print(JObj(ListMembers(cs))) == "{" + ConnectorsText(cs)
  {
    hide PrintMembers;
    assert "{" + PrintMembers(ListMembers(cs)) + "}" == "{" + (PrintMembers(ListMembers(cs)) + "}");
  }

  /** Saving a registry and loading it into an empty host restores the same connectors in the
      same order, all fields except capabilities, when the printed connectors are balanced; the
      walker finds exactly the saved objects only then. */
  lemma {:induction false} RegistrySurvivesRestart(cs: seq<Connector>)
    requires Sound(cs)
    ensures var printed := PrintAll(ConnectorObjects(cs));
      && (ObjectArray(ConnectorsText(cs), "connectors") == printed <==> AllBalanced(printed))
      && (AllBalanced(printed) ==> Loaded([], ObjectArray(ConnectorsText(cs), "connectors")) == Bare(cs))
  {
    hide PrintAll, AllBalanced, ObjectArray, Print, PrintMembers, FirstMention, Loaded, Sound;
    ListIsProper(cs);
    MemberArraySplitsExactly(ListMembers(cs), 1);
    ListIsObject(cs);
    BraceIsSkipped(ConnectorsText(cs), "connectors");
    assert [] + cs == cs && Bare([]) == [];
    LoadPrinted([], cs);
  }

  /** Texts with paired braces keep a connector balanced. */
  lemma PairedConnectorIsBalanced(c: Connector)
    requires Paired(c.id) && Paired(c.kind) && Paired(c.baseUrl) && Paired(c.launchCmd) && Paired(c.workDir)
    requires forall i | 0 <= i < |c.capabilities| :: Paired(c.capabilities[i])
    ensures Balanced(Print(ConnectorObject(c)))
  {
    hide Paired, Balanced, Print;
    ConnectorIsProper(c);
    assert TextsPaired(JArr(Texts(c.capabilities)));
    PrintPaired(ConnectorObject(c));
  }
}
