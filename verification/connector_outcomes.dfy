/** What registering, unregistering and reading a connector give, connector by connector and field
    by field. */
module ConnectorOutcomes {
  import opened Text
  import opened JsonCodec
  import opened JsonTokens
  import opened JsonDocument
  import opened Connectors

  /** `id` is the id of the `i`th connector and of no other. */
  predicate IsAt(cs: seq<Connector>, id: string, i: nat) {
    i < |cs| && cs[i].id == id && forall k | 0 <= k < |cs| && k != i :: cs[k].id != id
  }

  lemma FoundAt(cs: seq<Connector>, id: string, i: nat)
    requires IsAt(cs, id, i)
    ensures IndexOf(cs, id) == Some(i)
  {
    var r := IndexOf(cs, id);
  }

  /** A connector of a known id takes the place of the earlier one; one of a new id comes last. */
  lemma RegisteringReplaces(cs: seq<Connector>, c: Connector, i: nat)
    requires c.id != "" && c.kind != ""
    ensures IsAt(cs, c.id, i) ==> Registered(cs, c) == cs[i := c]
    ensures (forall k | 0 <= k < |cs| :: cs[k].id != c.id) ==> Registered(cs, c) == cs + [c]
  {
    if IsAt(cs, c.id, i) {
      FoundAt(cs, c.id, i);
    }
  }

  lemma NamelessIsNotRegistered(cs: seq<Connector>, c: Connector)
    requires c.id == "" || c.kind == ""
    ensures Registered(cs, c) == cs
  {
  }

  /** Exactly that connector is gone; the others stay in order. */
  lemma UnregisteringRemoves(cs: seq<Connector>, id: string, i: nat)
    ensures IsAt(cs, id, i) ==> Unregistered(cs, id) == cs[..i] + cs[i + 1..]
    ensures (forall k | 0 <= k < |cs| :: cs[k].id != id) ==> Unregistered(cs, id) == cs
  {
    if IsAt(cs, id, i) {
      FoundAt(cs, id, i);
    }
  }

  /** What was registered last under an id is what loading leaves: the last of its objects wins. */
  lemma LastObjectWins(cs: seq<Connector>, objects: seq<string>, last: string)
    requires ParseConnector(last).Parsed?
    ensures var c := ParseConnector(last).connector;
      && Loaded(cs, objects + [last]) == Registered(Loaded(cs, objects), c)
      && c in Loaded(cs, objects + [last])
  {
    hide ParseConnector, Registered;
    LoadedAfter(cs, objects, last);
    var c := ParseConnector(last).connector;
    ParsedIsNamed(last);
    RegisteredIsThere(Loaded(cs, objects), c);
  }

  lemma {:induction false} LoadedAfter(cs: seq<Connector>, objects: seq<string>, last: string)
    requires ParseConnector(last).Parsed?
    ensures Loaded(cs, objects + [last]) == Registered(Loaded(cs, objects), ParseConnector(last).connector)
    decreases |objects|
  {
    hide ParseConnector, Registered;
    if objects == [] {
      assert [last][1..] == [] && objects + [last] == [last];
    } else {
      assert (objects + [last])[1..] == objects[1..] + [last];
      var parsed := ParseConnector(objects[0]);
      LoadedAfter(if parsed.Parsed? then Registered(cs, parsed.connector) else cs, objects[1..], last);
    }
  }

  lemma ParsedIsNamed(json: string)
    requires ParseConnector(json).Parsed?
    ensures var c := ParseConnector(json).connector; c.id != "" && c.kind in {"http_peer", "launched_process"}
  {
    hide StringField, BoolField;
  }

  lemma RegisteredIsThere(cs: seq<Connector>, c: Connector)
    requires c.id != "" && c.kind in {"http_peer", "launched_process"}
    ensures c in Registered(cs, c)
  {
    var at := IndexOf(cs, c.id);
    assert "http_peer" != "" && "launched_process" != "";
    if at.Some? {
      assert cs[at.value := c][at.value] == c;
    } else {
      assert (cs + [c])[|cs|] == c;
    }
  }

  /** A printed connector has its seven fields under these names. */
  lemma PrintedFields(c: Connector)
    ensures var text := Print(ConnectorObject(c));
      && StringField(text, "id", 0) == c.id && StringField(text, "kind", 0) == c.kind
      && StringField(text, "base_url", 0) == c.baseUrl && StringField(text, "launch_cmd", 0) == c.launchCmd
      && StringField(text, "work_dir", 0) == c.workDir && BoolField(text, "enabled", 0) == Some(c.enabled)
      && StringField(text, "capabilities", 0) == ""
  {
    hide StringField, BoolField, Print, ConnectorObject;
    ConnectorFieldReadsBack(c, 0);
    ConnectorFieldReadsBack(c, 1);
    ConnectorFieldReadsBack(c, 2);
    ConnectorFieldReadsBack(c, 3);
    ConnectorFieldReadsBack(c, 4);
    ConnectorFieldReadsBack(c, 5);
    ConnectorFieldReadsBack(c, 6);
  }

  /** A registration written by hand: without a flag the connector is enabled, its one capability is
      a text, and the kind is one of two. */
  lemma HandWrittenIsRead(id: string, kind: string, capability: string)
    ensures var text := Print(JObj([Member("id", JStr(id)), Member("kind", JStr(kind)),
      Member("capabilities", JStr(capability))]));
      ParseConnector(text) ==
        if id == "" || kind == "" then Rejected("Connector requires id and kind.")
        else if kind != "http_peer" && kind != "launched_process"
        then Rejected("Connector kind must be http_peer or launched_process.")
        else Parsed(Connector(id, kind, "", "", "", if capability == "" then [] else [capability], true))
  {
    hide StringField, BoolField, Print, FirstInMembers;
    var a, b, c := Member("id", JStr(id)), Member("kind", JStr(kind)), Member("capabilities", JStr(capability));
    ConnectorKeys();
    HandWrittenField(a, b, c, "id");
    HandWrittenField(a, b, c, "kind");
    HandWrittenField(a, b, c, "base_url");
    HandWrittenField(a, b, c, "launch_cmd");
    HandWrittenField(a, b, c, "work_dir");
    HandWrittenField(a, b, c, "enabled");
    HandWrittenField(a, b, c, "capabilities");
  }

  lemma HandWrittenField(a: Member, b: Member, c: Member, key: string)
    requires a.name == "id" && b.name == "kind" && c.name == "capabilities"
    requires a.value.JStr? && b.value.JStr? && c.value.JStr? && IsKey(key)
    ensures var text := Print(JObj([a, b, c]));
      && StringField(text, key, 0) == (if key == "id" then a.value.text else if key == "kind" then b.value.text
        else if key == "capabilities" then c.value.text else "")
      && BoolField(text, key, 0) == None
  {
    hide StringField, BoolField, Print, FirstInMembers;
    ConnectorKeys();
    var v := JObj([a, b, c]);
    assert Proper(v) by { hide IsKey; }
    FirstInThree(a, b, c, key);
    FirstInOne(a, key);
    FirstInOne(b, key);
    FirstInOne(c, key);
    ReadBack(v, key);
  }
}
