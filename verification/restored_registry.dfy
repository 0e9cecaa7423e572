/** Exactly when a saved registry is restored, although a text in it may hold unpaired braces: what
    `cli/droidcli.cpp` loads of what `src/net/connector.cpp` prints. */
module RestoredRegistry {
  import opened Text
  import opened JsonCodec
  import opened JsonTokens
  import opened JsonDocument
  import opened BraceWalker
  import opened BraceScan
  import opened CutObjects
  import opened Connectors

  /** The texts of a connector that are read back, in the order they are printed. */
  function Texts5(c: Connector): string {
    c.id + c.kind + c.baseUrl + c.launchCmd + c.workDir
  }

  /** No proper prefix of the texts closes the connector's object, and if they close it at their
      end, so that the flag behind them is not read, the connector is enabled, as by default. */
  predicate Survives(c: Connector) {
    && (forall k | 0 <= k < |Texts5(c)| :: 1 + Depth(Texts5(c)[..k]) > 0)
    && (c.enabled || StaysOpen(Texts5(c), 1))
  }

  lemma ConnectorSkeletons(c: Connector)
    ensures var ms := ConnectorMembers(c);
      && SkeletonOfMembers(ms[..0]) == "" && SkeletonOfMembers(ms[..1]) == c.id
      && SkeletonOfMembers(ms[..2]) == c.id + c.kind && SkeletonOfMembers(ms[..3]) == c.id + c.kind + c.baseUrl
      && SkeletonOfMembers(ms[..4]) == c.id + c.kind + c.baseUrl + c.launchCmd
      && SkeletonOfMembers(ms[..5]) == Texts5(c)
  {
    hide SkeletonOfMembers;
    var ms := ConnectorMembers(c);
    SkeletonGrows(ms, 0);
    SkeletonGrows(ms, 1);
    SkeletonGrows(ms, 2);
    SkeletonGrows(ms, 3);
    SkeletonGrows(ms, 4);
    assert "" + c.id == c.id;
  }

  lemma ConnectorMentions(c: Connector, i: nat)
    requires i < 7
    ensures ProperMembers(ConnectorMembers(c)) && FirstMention(ConnectorMembers(c), i)
  {
    hide IsKey;
    ConnectorIsProper(c);
    var ms := ConnectorMembers(c);
    forall j | 0 <= j < i ensures ms[j].name != ms[i].name && FirstMember(ms[j].value, ms[i].name).None? {
      ConnectorKeysDiffer(c, j, i);
    }
  }

  /** The five texts read of a piece: beginnings of the connector's own, as long together as a
      scan of them all. */
  lemma TextsRead(c: Connector, rest: string)
    ensures var piece := Piece(ConnectorObject(c), rest);
      var id, kind, url := StringField(piece, "id", 0), StringField(piece, "kind", 0),
        StringField(piece, "base_url", 0);
      var cmd, dir := StringField(piece, "launch_cmd", 0), StringField(piece, "work_dir", 0);
      && id <= c.id && kind <= c.kind && url <= c.baseUrl && cmd <= c.launchCmd && dir <= c.workDir
      && |id| + |kind| + |url| + |cmd| + |dir| == ScanObject(Texts5(c), 1)
  {
    hide FirstMention, ProperMembers, ScanObject, Piece, StringField, SkeletonOfMembers, Texts5;
    var ms := ConnectorMembers(c);
    ConnectorSkeletons(c);
    ScanNothing();
    ConnectorMentions(c, 0);
    MemberTextGrowth(ms, 0, rest);
    ConnectorMentions(c, 1);
    MemberTextGrowth(ms, 1, rest);
    ConnectorMentions(c, 2);
    MemberTextGrowth(ms, 2, rest);
    ConnectorMentions(c, 3);
    MemberTextGrowth(ms, 3, rest);
    ConnectorMentions(c, 4);
    MemberTextGrowth(ms, 4, rest);
  }

  lemma ScanNothing()
    ensures ScanObject("", 1) == 0
  {
  }

  lemma FlagAndListRead(c: Connector, rest: string)
    ensures var piece := Piece(ConnectorObject(c), rest);
      && BoolField(piece, "enabled", 0) == (if StaysOpen(Texts5(c), 1) then Some(c.enabled) else None)
      && StringField(piece, "capabilities", 0) == ""
  {
    hide FirstMention, ProperMembers, StaysOpen, Piece, StringField, BoolField, SkeletonOfMembers, Texts5;
    var ms := ConnectorMembers(c);
    ConnectorSkeletons(c);
    ConnectorMentions(c, 5);
    MemberFlagRead(ms, 5, rest);
    ConnectorMentions(c, 6);
    MemberListRead(ms, 6, rest);
  }

  /** The texts are all read exactly when no proper prefix of them closes. */
  predicate TextsWhole(c: Connector) {
    forall k | 0 <= k < |Texts5(c)| :: 1 + Depth(Texts5(c)[..k]) > 0
  }

  lemma PieceTexts(c: Connector, rest: string)
    ensures var piece := Piece(ConnectorObject(c), rest);
      TextsWhole(c) <==>
        (StringField(piece, "id", 0) == c.id && StringField(piece, "kind", 0) == c.kind
        && StringField(piece, "base_url", 0) == c.baseUrl && StringField(piece, "launch_cmd", 0) == c.launchCmd
        && StringField(piece, "work_dir", 0) == c.workDir)
  {
    hide Depth, Piece, StringField, ScanObject, Texts5;
    TextsRead(c, rest);
    ScansWhole(Texts5(c), 1);
    TextsLength(c);
    var piece := Piece(ConnectorObject(c), rest);
    SameBeginning(StringField(piece, "id", 0), c.id);
    SameBeginning(StringField(piece, "kind", 0), c.kind);
    SameBeginning(StringField(piece, "base_url", 0), c.baseUrl);
    SameBeginning(StringField(piece, "launch_cmd", 0), c.launchCmd);
    SameBeginning(StringField(piece, "work_dir", 0), c.workDir);
  }

  lemma SameBeginning(a: string, b: string)
    ensures a <= b ==> (a == b <==> |a| == |b|)
  {
  }

  /** What is parsed of a piece whose texts are whole: a flag that is not reached counts as set. */
  lemma WholePieceParsed(c: Connector, rest: string)
    requires c.id != "" && IsKind(c.kind) && TextsWhole(c)
    ensures ParseConnector(Piece(ConnectorObject(c), rest))
      == Parsed(c.(capabilities := [], enabled := c.enabled || !StaysOpen(Texts5(c), 1)))
  {
    hide StaysOpen, Depth, Piece, StringField, BoolField, IsKind, ConnectorObject, Texts5, TextsWhole;
    PieceTexts(c, rest);
    FlagAndListRead(c, rest);
    HasKind(c);
  }

  /** A piece is parsed as the connector, all fields except capabilities, exactly when it survives. */
  lemma PieceParsesExactly(c: Connector, rest: string)
    requires c.id != "" && IsKind(c.kind)
    ensures ParseConnector(Piece(ConnectorObject(c), rest)) == Parsed(c.(capabilities := [])) <==> Survives(c)
  {
    hide StaysOpen, Depth, Piece, StringField, BoolField, IsKind, ConnectorObject, Texts5, TextsWhole;
    SurvivesMeans(c);
    if TextsWhole(c) {
      WholePieceParsed(c, rest);
    } else {
      PieceTexts(c, rest);
    }
  }

  lemma SurvivesMeans(c: Connector)
    ensures Survives(c) <==> TextsWhole(c) && (c.enabled || StaysOpen(Texts5(c), 1))
  {
  }

  lemma TextsLength(c: Connector)
    ensures |Texts5(c)| == |c.id| + |c.kind| + |c.baseUrl| + |c.launchCmd| + |c.workDir|
  {
  }

  // ---- loading ------------------------------------------------------------------------------

  lemma {:induction false} LoadedConcat(cs: seq<Connector>, a: seq<string>, b: seq<string>)
    ensures Loaded(cs, a + b) == Loaded(Loaded(cs, a), b)
    decreases |a|
  {
    hide ParseConnector, Registered;
    if a == [] {
      assert a + b == b;
    } else {
      assert (a + b)[1..] == a[1..] + b;
      var parsed := ParseConnector(a[0]);
      LoadedConcat(if parsed.Parsed? then Registered(cs, parsed.connector) else cs, a[1..], b);
    }
  }

  lemma {:induction false} LoadedNothing(cs: seq<Connector>, pieces: seq<string>)
    requires forall piece | piece in pieces :: Find(piece, Needle("id"), 0).None?
    ensures Loaded(cs, pieces) == cs
    decreases |pieces|
  {
    hide Find, Registered;
    if pieces != [] {
      assert pieces[0] in pieces;
      LoadedNothing(cs, pieces[1..]);
    }
  }

  lemma RegisteredLast(cs: seq<Connector>, x: Connector, c: Connector)
    requires IndexOf(cs, c.id).None? && c.id != "" && c.kind != ""
    ensures Registered(cs, x) == cs + [c] <==> x == c
  {
    var i := IndexOf(cs, x.id);
    if x.id == "" || x.kind == "" {
      assert |Registered(cs, x)| == |cs|;
    } else if i.Some? {
      assert |Registered(cs, x)| == |cs|;
      assert |cs + [c]| == |cs| + 1;
    } else {
      assert Registered(cs, x) == cs + [x];
      assert (cs + [x])[|cs|] == x && (cs + [c])[|cs|] == c;
    }
  }

  /** The pieces of a saved registry whose connectors balance up to the last one. */
  lemma RegistryPieces(before: seq<Connector>, c: Connector)
    requires AllBalanced(PrintAll(ConnectorObjects(before)))
    ensures ObjectArray(ConnectorsText(before + [c]), "connectors")
      == PrintAll(ConnectorObjects(before))
        + ([Piece(ConnectorObject(c), "]}")] + SplitObjects(Left(ConnectorObject(c), "]}")))
  {
    hide ObjectArray, Print, PrintMembers, Balanced, SplitObjects, Left, Piece, ConnectorObject, FirstMention,
      ProperMembers;
    var cs := before + [c];
    ListIsProper(cs);
    ListIsObject(cs);
    BraceIsSkipped(ConnectorsText(cs), "connectors");
    assert ConnectorObjects(cs) == ConnectorObjects(before) + [ConnectorObject(c)] + [];
    AreObjects(cs);
    forall i | 0 <= i < |before| ensures ConnectorObjects(before)[i].JObj?
      && Balanced(Print(ConnectorObjects(before)[i])) {
      assert PrintAll(ConnectorObjects(before))[i] == Print(ConnectorObjects(before)[i]);
      assert ConnectorObjects(before)[i] == ConnectorObjects(cs)[i];
    }
    assert ConnectorObjects(cs)[|before|] == ConnectorObject(c);
    ListPieces(ListMembers(cs), ConnectorObjects(before), ConnectorObject(c), []);
    NothingFollows();
  }

  lemma AreObjects(cs: seq<Connector>)
    ensures forall i | 0 <= i < |cs| :: ConnectorObjects(cs)[i].JObj?
  {
  }

  lemma NothingFollows()
    ensures Behind([]) == "]}"
  {
  }

  /** What is loaded: the connectors up to the last one, and what is parsed of the last piece. */
  lemma RegistryLoaded(before: seq<Connector>, c: Connector)
    requires Sound(before + [c]) && AllBalanced(PrintAll(ConnectorObjects(before)))
    ensures var parsed := ParseConnector(Piece(ConnectorObject(c), "]}"));
      Loaded([], ObjectArray(ConnectorsText(before + [c]), "connectors"))
        == if parsed.Parsed? then Registered(Bare(before), parsed.connector) else Bare(before)
  {
    hide ObjectArray, Print, AllBalanced, SplitObjects, Left, Piece, ParseConnector, Registered, IsKind, PrintAll,
      Loaded;
    RegistryPieces(before, c);
    var objects, more := PrintAll(ConnectorObjects(before)), SplitObjects(Left(ConnectorObject(c), "]}"));
    var piece := Piece(ConnectorObject(c), "]}");
    LoadedConcat([], objects, [piece] + more);
    SoundBefore(before, c);
    assert [] + before == before && Bare([]) == [];
    LoadPrinted([], before);
    LoadedConcat(Bare(before), [piece], more);
    OneLoaded(Bare(before), piece);
    LaterConnectorsLackIds(c);
    LoadedNothing(Loaded(Bare(before), [piece]), more);
  }

  /** A saved registry whose connectors balance up to the last one is restored, in order and all
      fields except capabilities, if and only if the last one survives. */
  lemma RegistryRestoredExactly(before: seq<Connector>, c: Connector)
    requires Sound(before + [c]) && AllBalanced(PrintAll(ConnectorObjects(before)))
    ensures Loaded([], ObjectArray(ConnectorsText(before + [c]), "connectors")) == Bare(before + [c]) <==> Survives(c)
  {
    hide ObjectArray, Print, AllBalanced, Piece, ParseConnector, Registered, Survives, IsKind, PrintAll, Loaded;
    RegistryLoaded(before, c);
    SoundBefore(before, c);
    PieceParsesExactly(c, "]}");
    assert Bare(before + [c]) == Bare(before) + [c.(capabilities := [])];
    IdIsNew(before, c);
    HasKind(c);
    var parsed := ParseConnector(Piece(ConnectorObject(c), "]}"));
    if parsed.Parsed? {
      RegisteredLast(Bare(before), parsed.connector, c.(capabilities := []));
    }
  }

  /** A disabled connector whose texts close its object at their end comes back enabled. */
  lemma DisabledComesBackEnabled(before: seq<Connector>, c: Connector)
    requires Sound(before + [c]) && AllBalanced(PrintAll(ConnectorObjects(before)))
    requires !c.enabled && TextsWhole(c) && !StaysOpen(Texts5(c), 1)
    ensures Loaded([], ObjectArray(ConnectorsText(before + [c]), "connectors"))
      == Bare(before) + [c.(capabilities := [], enabled := true)]
  {
    hide ObjectArray, Print, AllBalanced, Piece, ParseConnector, Registered, IsKind, PrintAll, Loaded, TextsWhole,
      StaysOpen;
    RegistryLoaded(before, c);
    SoundBefore(before, c);
    WholePieceParsed(c, "]}");
    IdIsNew(before, c);
    HasKind(c);
    RegisteredLast(Bare(before), c.(capabilities := [], enabled := true), c.(capabilities := [], enabled := true));
  }

  lemma SoundBefore(before: seq<Connector>, c: Connector)
    requires Sound(before + [c])
    ensures Sound(before) && c.id != "" && IsKind(c.kind)
  {
    hide IsKind;
    assert (before + [c])[|before|] == c;
    forall i | 0 <= i < |before| ensures (before + [c])[i] == before[i] {
    }
  }

  lemma IdIsNew(before: seq<Connector>, c: Connector)
    requires Sound(before + [c])
    ensures IndexOf(Bare(before), c.id).None?
  {
    hide IsKind;
    assert (before + [c])[|before|] == c;
    forall i | 0 <= i < |before| ensures before[i].id != c.id {
      assert (before + [c])[i] == before[i];
    }
  }

  lemma OneLoaded(cs: seq<Connector>, piece: string)
    ensures var parsed := ParseConnector(piece);
      Loaded(cs, [piece]) == if parsed.Parsed? then Registered(cs, parsed.connector) else cs
  {
    hide ParseConnector, Registered;
    assert [piece][1..] == [];
  }

  lemma LaterConnectorsLackIds(c: Connector)
    ensures forall piece | piece in SplitObjects(Left(ConnectorObject(c), "]}")) :: Find(piece, Needle("id"), 0).None?
  {
    hide SplitObjects, Left, FirstMention, ProperMembers, StaysOpen, Find;
    var ms := ConnectorMembers(c);
    ConnectorMentions(c, 0);
    ConnectorSkeletons(c);
    NothingStaysOpen(1);
    forall j | 0 <= j < |ms[1..]| ensures ms[1..][j].name != "id" && FirstMember(ms[1..][j].value, "id").None? {
      ConnectorKeysDiffer(c, 0, j + 1);
      NoKeysInTexts(c, j + 1);
    }
    MemberAbsent(ms[1..], "id");
    LaterPiecesLack(ms, 0);
  }

  lemma NoKeysInTexts(c: Connector, i: nat)
    requires i < 7
    ensures FirstMember(ConnectorMembers(c)[i].value, "id").None?
  {
    if i == 6 {
      NoKeysInItems(Texts(c.capabilities), "id");
    }
  }

  lemma {:induction false} NoKeysInItems(items: seq<Json>, key: string)
    requires forall i | 0 <= i < |items| :: items[i].JStr?
    ensures FirstInItems(items, key).None?
  {
    if items != [] {
      NoKeysInItems(items[1..], key);
    }
  }

  /** A working directory of one closing brace is enough. */
  lemma DisabledWitness()
    ensures var c := Connector("x", "http_peer", "", "", "}", [], false);
      && Sound([c])
      && Loaded([], ObjectArray(ConnectorsText([c]), "connectors")) == [c.(enabled := true)]
  {
    hide ObjectArray, Loaded, TextsWhole, StaysOpen, Texts5;
    var c := Connector("x", "http_peer", "", "", "}", [], false);
    BraceCloses();
    assert [] + [c] == [c];
    NoneAreBalanced();
    DisabledComesBackEnabled([], c);
    assert Bare([]) + [c.(enabled := true)] == [c.(enabled := true)];
    assert c.(capabilities := [], enabled := true) == c.(enabled := true);
  }

  lemma NoneAreBalanced()
    ensures AllBalanced(PrintAll(ConnectorObjects([])))
  {
  }

  lemma BraceCloses()
    ensures var c := Connector("x", "http_peer", "", "", "}", [], false); TextsWhole(c) && !StaysOpen(Texts5(c), 1)
  {
    hide Depth;
    var c := Connector("x", "http_peer", "", "", "}", [], false);
    var s := "xhttp_peer";
    assert Texts5(c) == s + "}";
    OneBrace();
    PlainDepth(s);
    DepthConcat(s, "}");
    forall k | 0 <= k < |s + "}"| ensures Depth((s + "}")[..k]) == 0 {
      assert (s + "}")[..k] == s[..k];
      PlainDepth(s[..k]);
    }
    assert (s + "}")[..|s + "}"|] == s + "}";
  }
}
