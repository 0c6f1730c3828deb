/**
 Commit actions: the wire form, the log form, the mapping between them, the operation derived
 for the commit, and the wire form of a file read back from the log.
 */
module Actions {
  import opened Wrappers
  import opened Json
  import opened Stats

  // ----- Wire form -----

  datatype WireAdd = WireAdd(
    path: string, size: I64, modificationTime: I64, partitionValues: map<string, string>,
    dataChange: int, stats: Option<FileStats>, tags: map<string, string>)

  datatype WireRemove = WireRemove(path: string, deletionTimestamp: Option<I64>, dataChange: int)

  datatype Protocol = Protocol(minReaderVersion: int, minWriterVersion: int)

  datatype Metadata = Metadata(id: string, schemaString: string, partitionColumns: seq<string>,
                               configuration: map<string, string>)

  datatype WireCommitInfo = WireCommitInfo(operation: int, operationParameters: map<string, string>)

  /** `WireMissing`: the oneof is not set.  `protocol` and `metadata` are what the foreign
      deserializer makes of those messages: the log form or an error. */
  datatype WireAction =
    | WireMissing
    | WireAddAction(add: WireAdd)
    | WireRemoveAction(remove: WireRemove)
    | WireProtocol(protocol: Result<Protocol, string>)
    | WireMetadata(metadata: Result<Metadata, string>)
    | WireInfo(info: WireCommitInfo)

  // The enum numbers of the wire format.
  const DATA_CHANGE_TRUE := 1
  const DATA_CHANGE_FALSE := 2
  const OPERATION_WRITE := 1
  const OPERATION_MERGE := 2
  const OPERATION_UPDATE := 3
  const OPERATION_DELETE := 4
  const OPERATION_OPTIMIZE := 5
  const OPERATION_VACUUM := 6
  const OPERATION_RESTORE := 7
  const OPERATION_CONVERT := 8

  // ----- Log form -----

  datatype Add = Add(
    path: string, size: I64, modificationTime: I64, partitionValues: map<string, Option<string>>,
    dataChange: bool, stats: Option<Text>, tags: Option<map<string, Option<string>>>)

  datatype Remove = Remove(path: string, deletionTimestamp: Option<I64>, dataChange: bool)

  datatype CommitInfo = CommitInfo(operation: Option<string>, operationParameters: Option<map<string, Value>>)

  datatype Action =
    | AddAction(add: Add)
    | RemoveAction(remove: Remove)
    | ProtocolAction(protocol: Protocol)
    | MetadataAction(metadata: Metadata)
    | InfoAction(info: CommitInfo)

  // ----- Wire to log -----

  function MapDataChange(dc: int): Result<bool, string> {
    if dc == DATA_CHANGE_TRUE then Ok(true)
    else if dc == DATA_CHANGE_FALSE then Ok(false)
    else if dc == 0 then Err("data_change is unspecified")
    else Err("invalid data_change value")
  }

  function MapStringMap(input: map<string, string>): map<string, Option<string>> {
    map k | k in input :: Some(input[k])
  }

  function MapOptionalStringMap(input: map<string, string>): Option<map<string, Option<string>>> {
    if input == map[] then None else Some(MapStringMap(input))
  }

  function MapJsonMap(input: map<string, string>): Option<map<string, Value>> {
    if input == map[] then None else Some(map k | k in input :: Str(input[k]))
  }

  function MapCommitOperation(operation: int): Option<string> {
    if operation == OPERATION_WRITE then Some("WRITE")
    else if operation == OPERATION_MERGE then Some("MERGE")
    else if operation == OPERATION_UPDATE then Some("UPDATE")
    else if operation == OPERATION_DELETE then Some("DELETE")
    else if operation == OPERATION_OPTIMIZE then Some("OPTIMIZE")
    else if operation == OPERATION_VACUUM then Some("VACUUM")
    else if operation == OPERATION_RESTORE then Some("RESTORE")
    else if operation == OPERATION_CONVERT then Some("CONVERT")
    else None
  }

  function MapCommitInfo(ci: WireCommitInfo): CommitInfo {
    CommitInfo(MapCommitOperation(ci.operation), MapJsonMap(ci.operationParameters))
  }

  function MapAction(w: WireAction): Result<Action, string> {
    match w
    case WireMissing => Err("missing action")
    case WireAddAction(a) =>
      (match MapDataChange(a.dataChange)
       case Err(e) => Err(e)
       case Ok(dc) =>
         Ok(AddAction(Add(a.path, a.size, a.modificationTime, MapStringMap(a.partitionValues), dc,
                          Write(a.stats), MapOptionalStringMap(a.tags)))))
    case WireRemoveAction(r) =>
      (match MapDataChange(r.dataChange)
       case Err(e) => Err(e)
       case Ok(dc) => Ok(RemoveAction(Remove(r.path, r.deletionTimestamp, dc))))
    case WireProtocol(Ok(p)) => Ok(ProtocolAction(p))
    case WireProtocol(Err(e)) => Err(e)
    case WireMetadata(Ok(m)) => Ok(MetadataAction(m))
    case WireMetadata(Err(e)) => Err(e)
    case WireInfo(ci) => Ok(InfoAction(MapCommitInfo(ci)))
  }

  /** In order, stopping at the first action that does not map. */
  function MapActions(ws: seq<WireAction>): Result<seq<Action>, string> {
    if ws == [] then Ok([])
    else
      match MapAction(ws[0])
      case Err(e) => Err(e)
      case Ok(a) =>
        match MapActions(ws[1..])
        case Err(e) => Err(e)
        case Ok(rest) => Ok([a] + rest)
  }

  /** A request maps exactly when each of its actions does; then nothing is dropped, added or
      reordered, and otherwise the error is that of the first bad action. */
  lemma {:induction false} MapActionsIsPointwise(ws: seq<WireAction>)
    ensures MapActions(ws).Ok? <==> forall i | 0 <= i < |ws| :: MapAction(ws[i]).Ok?
    ensures MapActions(ws).Ok? ==>
              && |MapActions(ws).value| == |ws|
              && forall i | 0 <= i < |ws| :: MapAction(ws[i]) == Ok(MapActions(ws).value[i])
    ensures MapActions(ws).Err? ==>
              exists i | 0 <= i < |ws| ::
                MapAction(ws[i]) == Err(MapActions(ws).error) && forall j | 0 <= j < i :: MapAction(ws[j]).Ok?
  {
    if ws == [] {
    } else {
      var rest := ws[1..];
      MapActionsIsPointwise(rest);
      assert forall i | 0 < i < |ws| :: ws[i] == rest[i - 1];
      if MapAction(ws[0]).Ok? && MapActions(rest).Err? {
        var i :| 0 <= i < |rest| && MapAction(rest[i]) == Err(MapActions(rest).error)
                 && forall j | 0 <= j < i :: MapAction(rest[j]).Ok?;
        assert MapAction(ws[i + 1]) == Err(MapActions(ws).error);
      }
    }
  }

  // ----- What a log action says about the wire action it comes from -----

  const OPERATION_NAMES := ["WRITE", "MERGE", "UPDATE", "DELETE", "OPTIMIZE", "VACUUM", "RESTORE", "CONVERT"]

  /** Not a message that can be logged: nothing set, no definite data-change flag, or a protocol or
      metadata that the deserializer refuses. */
  predicate Unmappable(w: WireAction) {
    match w
    case WireMissing => true
    case WireAddAction(a) => a.dataChange != 1 && a.dataChange != 2
    case WireRemoveAction(r) => r.dataChange != 1 && r.dataChange != 2
    case WireProtocol(p) => p.Err?
    case WireMetadata(m) => m.Err?
    case WireInfo(_) => false
  }

  /** The same entries, none of them null. */
  predicate SameStrings(sent: map<string, string>, logged: map<string, Option<string>>) {
    logged.Keys == sent.Keys && forall k | k in sent :: logged[k] == Some(sent[k])
  }

  /** Field by field. */
  ghost predicate LoggedAs(w: WireAction, a: Action) {
    match w
    case WireMissing => false
    case WireAddAction(x) =>
      && a.AddAction?
      && a.add.path == x.path && a.add.size == x.size && a.add.modificationTime == x.modificationTime
      && SameStrings(x.partitionValues, a.add.partitionValues)
      && (a.add.dataChange <==> x.dataChange == 1)
      && WritesAs(x.stats, a.add.stats)
      && (a.add.tags.None? <==> x.tags == map[])
      && (a.add.tags.Some? ==> SameStrings(x.tags, a.add.tags.value))
    case WireRemoveAction(x) =>
      && a.RemoveAction?
      && a.remove.path == x.path && a.remove.deletionTimestamp == x.deletionTimestamp
      && (a.remove.dataChange <==> x.dataChange == 1)
    case WireProtocol(p) => p.Ok? && a == ProtocolAction(p.value)
    case WireMetadata(m) => m.Ok? && a == MetadataAction(m.value)
    case WireInfo(ci) =>
      && a.InfoAction?
      && a.info.operation == (if 1 <= ci.operation <= 8 then Some(OPERATION_NAMES[ci.operation - 1]) else None)
      && (a.info.operationParameters.None? <==> ci.operationParameters == map[])
      && (a.info.operationParameters.Some? ==>
            && a.info.operationParameters.value.Keys == ci.operationParameters.Keys
            && forall k | k in ci.operationParameters ::
                 a.info.operationParameters.value[k] == Str(ci.operationParameters[k]))
  }

  lemma MapActionMeans(w: WireAction)
    ensures MapAction(w).Err? <==> Unmappable(w)
    ensures MapAction(w).Ok? ==> LoggedAs(w, MapAction(w).value)
  {
    if w.WireAddAction? {
      WriteMeans(w.add.stats);
    }
  }

  /** A request is refused exactly when it has an action that cannot be logged.  Otherwise it gives
      one log action for each of its own, in order, with the same content. */
  lemma {:induction false} MapActionsMeans(ws: seq<WireAction>)
    ensures MapActions(ws).Err? <==> exists w | w in ws :: Unmappable(w)
    ensures MapActions(ws).Ok? ==>
              && |MapActions(ws).value| == |ws|
              && forall i | 0 <= i < |ws| :: LoggedAs(ws[i], MapActions(ws).value[i])
  {
    MapActionsIsPointwise(ws);
    forall i | 0 <= i < |ws|
      ensures MapAction(ws[i]).Err? <==> Unmappable(ws[i])
      ensures MapAction(ws[i]).Ok? ==> LoggedAs(ws[i], MapAction(ws[i]).value)
    {
      MapActionMeans(ws[i]);
    }
    assert MapActions(ws).Err? ==> exists i | 0 <= i < |ws| :: Unmappable(ws[i]);
  }

  // ----- The commit's operation -----

  datatype DeltaOperation =
    | WriteOperation
    | Merge(filter: Option<string>, mergePredicate: Option<string>)
    | Update(filter: Option<string>)
    | Delete(filter: Option<string>)
    | Optimize(filter: Option<string>, targetSize: I64)
    | VacuumStart(retentionCheckEnabled: bool, specifiedRetentionMillis: Option<I64>, defaultRetentionMillis: I64)
    | Restore(version: Option<U64>, datetime: Option<I64>)
    | Create(protocol: Protocol, metadata: Metadata)

  /** The isolation level the conflict check may downgrade depends on this. */
  predicate ChangesData(op: DeltaOperation) {
    !op.Optimize? && !op.VacuumStart?
  }

  function FindProtocol(actions: seq<Action>): Option<Protocol> {
    if actions == [] then None
    else if actions[0].ProtocolAction? then Some(actions[0].protocol)
    else FindProtocol(actions[1..])
  }

  /** The first protocol action, if there is one. */
  lemma {:induction false} FindProtocolMeans(actions: seq<Action>)
    ensures FindProtocol(actions).Some? <==> exists a | a in actions :: a.ProtocolAction?
    ensures FindProtocol(actions).Some? ==>
              exists i | 0 <= i < |actions| ::
                && actions[i] == ProtocolAction(FindProtocol(actions).value)
                && forall j | 0 <= j < i :: !actions[j].ProtocolAction?
  {
    if actions == [] {
    } else if actions[0].ProtocolAction? {
      assert actions[0] in actions;
    } else {
      var rest := actions[1..];
      FindProtocolMeans(rest);
      assert forall i | 0 < i < |actions| :: actions[i] == rest[i - 1];
      if FindProtocol(rest).Some? {
        var i :| 0 <= i < |rest| && rest[i] == ProtocolAction(FindProtocol(rest).value)
                 && forall j | 0 <= j < i :: !rest[j].ProtocolAction?;
        assert actions[i + 1] == ProtocolAction(FindProtocol(actions).value);
      }
    }
  }

  function FindMetadata(actions: seq<Action>): Option<Metadata> {
    if actions == [] then None
    else if actions[0].MetadataAction? then Some(actions[0].metadata)
    else FindMetadata(actions[1..])
  }

  /** The first metadata action, if there is one. */
  lemma {:induction false} FindMetadataMeans(actions: seq<Action>)
    ensures FindMetadata(actions).Some? <==> exists a | a in actions :: a.MetadataAction?
    ensures FindMetadata(actions).Some? ==>
              exists i | 0 <= i < |actions| ::
                && actions[i] == MetadataAction(FindMetadata(actions).value)
                && forall j | 0 <= j < i :: !actions[j].MetadataAction?
  {
    if actions == [] {
    } else if actions[0].MetadataAction? {
      assert actions[0] in actions;
    } else {
      var rest := actions[1..];
      FindMetadataMeans(rest);
      assert forall i | 0 < i < |actions| :: actions[i] == rest[i - 1];
      if FindMetadata(rest).Some? {
        var i :| 0 <= i < |rest| && rest[i] == MetadataAction(FindMetadata(rest).value)
                 && forall j | 0 <= j < i :: !rest[j].MetadataAction?;
        assert actions[i + 1] == MetadataAction(FindMetadata(actions).value);
      }
    }
  }

  function FindInfo(actions: seq<Action>): Option<CommitInfo> {
    if actions == [] then None
    else if actions[0].InfoAction? then Some(actions[0].info)
    else FindInfo(actions[1..])
  }

  function Param(params: Option<map<string, Value>>, key: string): Option<Value> {
    if params.Some? && key in params.value then Some(params.value[key]) else None
  }

  function StringParam(params: Option<map<string, Value>>, key: string): Option<string> {
    match Param(params, key) case Some(v) => AsStr(v) case None => None
  }

  function IntParam(params: Option<map<string, Value>>, key: string): Option<I64> {
    match Param(params, key) case Some(v) => AsI64(v) case None => None
  }

  function UintParam(params: Option<map<string, Value>>, key: string): Option<U64> {
    match Param(params, key) case Some(v) => AsU64(v) case None => None
  }

  function OrZero(i: Option<I64>): I64 {
    if i.Some? then i.value else 0
  }

  function OperationOf(ci: CommitInfo): DeltaOperation {
    var params := ci.operationParameters;
    if ci.operation == Some("MERGE") then
      Merge(StringParam(params, "predicate"), StringParam(params, "merge_predicate"))
    else if ci.operation == Some("UPDATE") then Update(StringParam(params, "predicate"))
    else if ci.operation == Some("DELETE") then Delete(StringParam(params, "predicate"))
    else if ci.operation == Some("OPTIMIZE") then
      Optimize(StringParam(params, "predicate"), OrZero(IntParam(params, "target_size")))
    else if ci.operation == Some("VACUUM") then
      VacuumStart(true, IntParam(params, "specified_retention_millis"),
                  OrZero(IntParam(params, "default_retention_millis")))
    else if ci.operation == Some("RESTORE") then
      Restore(UintParam(params, "version"), IntParam(params, "datetime"))
    else WriteOperation
  }

  function BuildOperation(actions: seq<Action>): DeltaOperation {
    match FindInfo(actions)
    case None => WriteOperation
    case Some(ci) => OperationOf(ci)
  }

  // ----- What a request's operation comes to, read off the request itself -----

  function FirstWireInfo(ws: seq<WireAction>): Option<WireCommitInfo> {
    if ws == [] then None
    else if ws[0].WireInfo? then Some(ws[0].info)
    else FirstWireInfo(ws[1..])
  }

  function Lookup(params: map<string, string>, key: string): Option<string> {
    if key in params then Some(params[key]) else None
  }

  /** Text parameters as sent; every numeric parameter absent, whatever was sent. */
  function RequestedOperation(info: Option<WireCommitInfo>): DeltaOperation {
    match info
    case None => WriteOperation
    case Some(ci) =>
      var filter := Lookup(ci.operationParameters, "predicate");
      if ci.operation == OPERATION_MERGE then Merge(filter, Lookup(ci.operationParameters, "merge_predicate"))
      else if ci.operation == OPERATION_UPDATE then Update(filter)
      else if ci.operation == OPERATION_DELETE then Delete(filter)
      else if ci.operation == OPERATION_OPTIMIZE then Optimize(filter, 0)
      else if ci.operation == OPERATION_VACUUM then VacuumStart(true, None, 0)
      else if ci.operation == OPERATION_RESTORE then Restore(None, None)
      else WriteOperation
  }

  lemma {:induction false} InfoSurvivesMapping(ws: seq<WireAction>)
    requires MapActions(ws).Ok?
    ensures FindInfo(MapActions(ws).value)
            == (match FirstWireInfo(ws) case None => None case Some(ci) => Some(MapCommitInfo(ci)))
  {
    if ws == [] {
    } else {
      InfoSurvivesMapping(ws[1..]);
      assert MapActions(ws).value[1..] == MapActions(ws[1..]).value;
    }
  }

  lemma WireParametersAreStrings(params: map<string, string>, key: string)
    ensures StringParam(MapJsonMap(params), key) == Lookup(params, key)
    ensures IntParam(MapJsonMap(params), key) == None
    ensures UintParam(MapJsonMap(params), key) == None
  {
  }

  lemma OperationOfMappedInfo(ci: WireCommitInfo)
    ensures OperationOf(MapCommitInfo(ci)) == RequestedOperation(Some(ci))
  {
    var ps := ci.operationParameters;
    WireParametersAreStrings(ps, "predicate");
    WireParametersAreStrings(ps, "merge_predicate");
    WireParametersAreStrings(ps, "target_size");
    WireParametersAreStrings(ps, "specified_retention_millis");
    WireParametersAreStrings(ps, "default_retention_millis");
    WireParametersAreStrings(ps, "version");
    WireParametersAreStrings(ps, "datetime");
    var op := MapCommitOperation(ci.operation);
    assert op.Some? ==> |op.value| >= 5;
    DistinctOperationNames();
  }

  lemma DistinctOperationNames()
    ensures forall i, j | 1 <= i <= 8 && 1 <= j <= 8 :: MapCommitOperation(i) == MapCommitOperation(j) ==> i == j
  {
    assert "UPDATE"[0] != "DELETE"[0] && "VACUUM"[0] != "UPDATE"[0] && "VACUUM"[0] != "DELETE"[0];
    assert "WRITE"[0] != "MERGE"[0] && "RESTORE"[0] != "CONVERT"[0];
  }

  /** Through both layers: the operation the conflict check sees is the one the request's first
      commit info asks for, with its text parameters, without any numeric parameter. */
  lemma {:induction false} OperationThroughBothLayers(ws: seq<WireAction>)
    requires MapActions(ws).Ok?
    ensures BuildOperation(MapActions(ws).value) == RequestedOperation(FirstWireInfo(ws))
  {
    InfoSurvivesMapping(ws);
    if FirstWireInfo(ws).Some? {
      OperationOfMappedInfo(FirstWireInfo(ws).value);
    }
  }

  /** Only OPTIMIZE and VACUUM requests are committed as not changing data. */
  lemma {:induction false} NonDataChangingRequests(ws: seq<WireAction>)
    requires MapActions(ws).Ok?
    ensures !ChangesData(BuildOperation(MapActions(ws).value)) <==>
            && FirstWireInfo(ws).Some?
            && FirstWireInfo(ws).value.operation in {OPERATION_OPTIMIZE, OPERATION_VACUUM}
  {
    OperationThroughBothLayers(ws);
  }

  function InfoOf(operation: string, params: map<string, Value>): seq<Action> {
    [InfoAction(CommitInfo(Some(operation), Some(params)))]
  }

  /** A text is a parameter as it is, and a number exactly when it is in the range asked for; what
      is of another kind counts as absent. */
  lemma ParameterMeans(params: map<string, Value>, key: string, s: string, n: int)
    requires -TWO_63 <= n < 2 * TWO_63
    ensures StringParam(Some(params), key) == Some(s) <==> key in params && params[key] == Str(s)
    ensures n < TWO_63 ==>
              (IntParam(Some(params), key) == Some(n) <==>
               key in params && params[key] == Num(if n < 0 then NegInt(n) else PosInt(n)))
    ensures n >= 0 ==> (UintParam(Some(params), key) == Some(n) <==> key in params && params[key] == Num(PosInt(n)))
  {
  }

  /** Numeric parameters do reach the operation when the log action is built directly, each in its
      own place. */
  lemma {:induction false} DirectNumericParameters(params: map<string, Value>)
    ensures BuildOperation(InfoOf("OPTIMIZE", params))
            == Optimize(StringParam(Some(params), "predicate"), OrZero(IntParam(Some(params), "target_size")))
    ensures BuildOperation(InfoOf("VACUUM", params))
            == VacuumStart(true, IntParam(Some(params), "specified_retention_millis"),
                           OrZero(IntParam(Some(params), "default_retention_millis")))
    ensures BuildOperation(InfoOf("RESTORE", params))
            == Restore(UintParam(Some(params), "version"), IntParam(Some(params), "datetime"))
  {
    assert "OPTIMIZE"[0] !in {"MERGE"[0], "UPDATE"[0], "DELETE"[0]};
    assert "VACUUM"[0] !in {"MERGE"[0], "UPDATE"[0], "DELETE"[0], "OPTIMIZE"[0]};
    assert "RESTORE"[0] !in {"MERGE"[0], "UPDATE"[0], "DELETE"[0], "OPTIMIZE"[0], "VACUUM"[0]};
  }

  // ----- Reading a file back -----

  function OrEmpty(s: Option<string>): string {
    if s.Some? then s.value else ""
  }

  function MapActiveFile(path: string, size: I64, modificationTime: I64,
                         partitionValues: map<string, Option<string>>, stats: Option<Text>): WireAdd {
    WireAdd(path, size, modificationTime, map k | k in partitionValues :: OrEmpty(partitionValues[k]),
            DATA_CHANGE_TRUE, Read(stats), map[])
  }

  function ListedFile(a: Add): WireAdd {
    MapActiveFile(a.path, a.size, a.modificationTime, a.partitionValues, a.stats)
  }

  /** Any file of the log, whoever wrote it: the same file, with the statistics its text stands for,
      a null partition value as the empty string, and always reported as a data change. */
  lemma ListedFileMeans(a: Add)
    ensures var w := ListedFile(a);
            && w.path == a.path && w.size == a.size && w.modificationTime == a.modificationTime
            && w.partitionValues.Keys == a.partitionValues.Keys
            && (forall k, v | k in a.partitionValues && a.partitionValues[k] == Some(v) :: w.partitionValues[k] == v)
            && (forall k | k in a.partitionValues && a.partitionValues[k] == None :: w.partitionValues[k] == "")
            && w.dataChange == 1 && w.tags == map[]
            && ReadsAs(a.stats, w.stats)
  {
    ReadMeans(a.stats);
  }

  /** As sent, except reported as a data change, without tags, and without the non-finite bounds
      of its statistics. */
  function AsListed(w: WireAdd): WireAdd {
    w.(dataChange := DATA_CHANGE_TRUE, tags := map[],
       stats := if w.stats.Some? then Some(Erase(w.stats.value)) else None)
  }

  /** A file that was committed through the service is listed back as it was sent, up to those
      three changes. */
  lemma CommittedFileIsListedBack(w: WireAdd)
    requires MapAction(WireAddAction(w)).Ok?
    ensures MapAction(WireAddAction(w)).value.AddAction?
    ensures ListedFile(MapAction(WireAddAction(w)).value.add) == AsListed(w)
  {
    if w.stats.Some? {
      WriteThenRead(w.stats.value);
    }
    var listed := ListedFile(MapAction(WireAddAction(w)).value.add);
    assert listed.partitionValues == w.partitionValues;
  }

  // ----- The active files of a log prefix -----

  function ApplyAction(files: map<string, Add>, a: Action): map<string, Add> {
    match a
    case AddAction(add) => files[add.path := add]
    case RemoveAction(r) => files - {r.path}
    case _ => files
  }

  function ApplyActions(files: map<string, Add>, actions: seq<Action>): map<string, Add>
    decreases |actions|
  {
    if actions == [] then files else ApplyActions(ApplyAction(files, actions[0]), actions[1..])
  }
}
