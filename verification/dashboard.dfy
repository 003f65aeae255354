/** The dashboard's workflow state and its handlers. Every handler is a pure transition: the
    awaited network outcome is an explicit argument, and the handler returns the new state
    together with the request it sent (`None` when a guard stopped it before any request). */
module Dashboard {
  import opened Values
  import opened JsText

  /** A file chosen in the upload input; its contents never reach this layer. */
  datatype File = File(name: string)

  /** One model's entry in a training response. Only `model_path` is read by the handlers;
      the metric fields are kept as opaque text for display. */
  datatype Entry = Entry(modelPath: string, metrics: string)

  /** The parsed training response: model name to entry. */
  type Results = map<string, Entry>

  /** A JSON scalar as the training parameters hold it: the defaults are numbers, but an
      edited field holds the input's text (`e.target.value` is a string). */
  datatype Value = Num(n: int) | Text(text: string)

  datatype TrainingParams = TrainingParams(
    trainingPercentage: Value,
    testingPercentage: Value,
    criterion: Value,
    maxDepth: Value,
    nEstimators: Value)

  const DefaultParams: TrainingParams :=
    TrainingParams(Num(80), Num(20), Text("gini"), Num(10), Num(100))

  /** The five editable training parameters. */
  datatype ParamField = TrainingPercentage | TestingPercentage | Criterion | MaxDepth | NEstimators

  /** The JSON key under which each parameter is sent. */
  function FieldKey(f: ParamField): string {
    match f
    case TrainingPercentage => "training_percentage"
    case TestingPercentage => "testing_percentage"
    case Criterion => "criterion"
    case MaxDepth => "max_depth"
    case NEstimators => "n_estimators"
  }

  const FilePathKey: string := "file_path"

  function Get(p: TrainingParams, f: ParamField): Value {
    match f
    case TrainingPercentage => p.trainingPercentage
    case TestingPercentage => p.testingPercentage
    case Criterion => p.criterion
    case MaxDepth => p.maxDepth
    case NEstimators => p.nEstimators
  }

  /** `setTrainingParams({ ...trainingParams, <field>: e.target.value })`: the edited field
      takes the input's text and every other field keeps its value. */
  function SetParam(p: TrainingParams, f: ParamField, text: string): (r: TrainingParams)
    ensures Get(r, f) == Text(text)
    ensures forall g :: g != f ==> Get(r, g) == Get(p, g)
  {
    match f
    case TrainingPercentage => p.(trainingPercentage := Text(text))
    case TestingPercentage => p.(testingPercentage := Text(text))
    case Criterion => p.(criterion := Text(text))
    case MaxDepth => p.(maxDepth := Text(text))
    case NEstimators => p.(nEstimators := Text(text))
  }

  /** The body of the training request, `{ file_path, ...trainingParams }`: exactly six keys,
      the file reference under `file_path` and every parameter under its own key. */
  function TrainBody(filePath: string, p: TrainingParams): (body: map<string, Value>)
    ensures body.Keys == {FilePathKey, "training_percentage", "testing_percentage",
                          "criterion", "max_depth", "n_estimators"}
    ensures body[FilePathKey] == Text(filePath)
    ensures forall f :: FieldKey(f) in body && body[FieldKey(f)] == Get(p, f)
  {
    map[FilePathKey := Text(filePath),
        FieldKey(TrainingPercentage) := p.trainingPercentage,
        FieldKey(TestingPercentage) := p.testingPercentage,
        FieldKey(Criterion) := p.criterion,
        FieldKey(MaxDepth) := p.maxDepth,
        FieldKey(NEstimators) := p.nEstimators]
  }

  /** The parameters can be read back from a training body: no parameter is lost or
      overwritten by `file_path`. */
  function ParamsOfBody(body: map<string, Value>): Option<TrainingParams> {
    if FieldKey(TrainingPercentage) in body && FieldKey(TestingPercentage) in body
       && FieldKey(Criterion) in body && FieldKey(MaxDepth) in body && FieldKey(NEstimators) in body
    then Some(TrainingParams(body[FieldKey(TrainingPercentage)], body[FieldKey(TestingPercentage)],
                             body[FieldKey(Criterion)], body[FieldKey(MaxDepth)],
                             body[FieldKey(NEstimators)]))
    else None
  }

  lemma TrainBodyRoundTrip(filePath: string, p: TrainingParams)
    ensures ParamsOfBody(TrainBody(filePath, p)) == Some(p)
  {
    var body := TrainBody(filePath, p);
    assert body[FieldKey(TrainingPercentage)] == p.trainingPercentage;
    assert body[FieldKey(TestingPercentage)] == p.testingPercentage;
    assert body[FieldKey(Criterion)] == p.criterion;
    assert body[FieldKey(MaxDepth)] == p.maxDepth;
    assert body[FieldKey(NEstimators)] == p.nEstimators;
  }

  /** The freeze payload `model_paths`: for every model of the results, its `model_path`. */
  function ModelPaths(results: Results): map<string, string> {
    map m | m in results :: results[m].modelPath
  }

  /** The `for (const model in results)` loop that builds the freeze payload, one model at a
      time: the payload has exactly the results' models as keys, each mapped to that model's
      path, and so equals `ModelPaths`. */
  method CollectModelPaths(results: Results) returns (paths: map<string, string>)
    ensures paths.Keys == results.Keys
    ensures forall m :: m in paths ==> paths[m] == results[m].modelPath
    ensures paths == ModelPaths(results)
  {
    paths := map[];
    var pending := results.Keys;
    while pending != {}
      invariant pending <= results.Keys
      invariant paths.Keys == results.Keys - pending
      invariant forall m :: m in paths ==> paths[m] == results[m].modelPath
      decreases pending
    {
      var m :| m in pending;
      paths := paths[m := results[m].modelPath];
      pending := pending - {m};
    }
  }

  /** The four tabs, as the navigation bar lists them. */
  datatype Tab = DataIngestion | DataTransformation | AutoTrain | FreezeLearnings

  function TabName(t: Tab): string {
    match t
    case DataIngestion => "Data Ingestion"
    case DataTransformation => "Data Transformation"
    case AutoTrain => "Auto Train ML models"
    case FreezeLearnings => "Freeze the learnings"
  }

  const NavTabs: seq<Tab> := [DataIngestion, DataTransformation, AutoTrain, FreezeLearnings]

  /** `renderContent`'s switch on the active tab name: the panel to show, or nothing (the
      `default: return null` branch) for a name that is not one of the four. */
  function RenderedPanel(name: string): (r: Option<Tab>)
    ensures r.Some? ==> TabName(r.value) == name
    ensures r.None? ==> forall t :: TabName(t) != name
  {
    if name == TabName(DataIngestion) then Some(DataIngestion)
    else if name == TabName(DataTransformation) then Some(DataTransformation)
    else if name == TabName(AutoTrain) then Some(AutoTrain)
    else if name == TabName(FreezeLearnings) then Some(FreezeLearnings)
    else None
  }

  /** Every tab's name selects its own panel: distinct tabs have distinct names. */
  lemma RenderedPanelOfName(t: Tab)
    ensures RenderedPanel(TabName(t)) == Some(t)
  {
  }

  /** The component's state hooks. */
  datatype State = State(
    file: Option<File>,
    results: Option<Results>,
    transformationMessage: string,
    freezeMessage: string,
    message: string,
    activeTab: string,
    trainingParams: TrainingParams)

  const Initial: State := State(None, None, "", "", "", "Data Ingestion", DefaultParams)

  const SelectFileFirst: string := "Please select a file to upload."
  const IngestSucceeded: string := "Data ingested and models trained successfully!"
  const UploadFailed: string := "Error uploading file."
  const UploadFirst: string := "Please upload a file first."
  const TransformFailed: string := "Error transforming data."
  const TrainFirst: string := "Please train models first."
  const FreezeFailed: string := "Error freezing models."
  const TrainSucceeded: string := "Models trained successfully!"
  const TrainFailed: string := "Error training models."
  const RandomForest: string := "Random Forest"

  /** The requests the dashboard sends, one per endpoint. */
  datatype Request =
    | Upload(file: File)
    | Transform(transformation: string, features: seq<string>, filePath: string)
    | Train(body: map<string, Value>)
    | Freeze(modelPaths: map<string, string>)

  datatype Transition = Transition(next: State, request: Option<Request>)

  /** The `TypeError` the transformation handler throws, outside its `try`, when it reads
      `results['Random Forest'].model_path` and either `results` is still `null` or it has no
      "Random Forest" entry. The promise rejects; no state changes and nothing is sent. */
  datatype Fault = NullResults | NoRandomForestEntry

  datatype Handled = Done(step: Transition) | Threw(fault: Fault)

  /** The parts of the state, for saying which ones a transition leaves alone. */
  datatype Slot = FileSlot | ResultsSlot | TransformationMessageSlot | FreezeMessageSlot
                | MessageSlot | ActiveTabSlot | ParamsSlot

  predicate Agree(a: State, b: State, s: Slot) {
    match s
    case FileSlot => a.file == b.file
    case ResultsSlot => a.results == b.results
    case TransformationMessageSlot => a.transformationMessage == b.transformationMessage
    case FreezeMessageSlot => a.freezeMessage == b.freezeMessage
    case MessageSlot => a.message == b.message
    case ActiveTabSlot => a.activeTab == b.activeTab
    case ParamsSlot => a.trainingParams == b.trainingParams
  }

  /** `b` differs from `a` at most in the slots listed in `changed`. */
  predicate Frame(a: State, b: State, changed: set<Slot>) {
    forall s :: s !in changed ==> Agree(a, b, s)
  }

  /** Choosing a file (or cancelling the picker, which leaves `files[0]` undefined). */
  function HandleFileChange(st: State, f: Option<File>): (r: State)
    ensures r.file == f
    ensures Frame(st, r, {FileSlot})
  {
    st.(file := f)
  }

  /** `handleIngest`: without a file it only sets the prompt and sends nothing; otherwise it
      uploads the file, and on success stores the response as the results, while on failure
      it sets the error message and keeps the previous results. */
  function HandleIngest(st: State, outcome: Response<Results>): (r: Transition)
    ensures Frame(st, r.next, {MessageSlot, ResultsSlot})
    ensures st.file.None? ==> r.request.None? && r.next.message == SelectFileFirst
                              && r.next.results == st.results
    ensures st.file.Some? ==> r.request == Some(Upload(st.file.value))
    ensures st.file.Some? && outcome.Success? ==>
              r.next.results == Some(outcome.data) && r.next.message == IngestSucceeded
    ensures st.file.Some? && outcome.Failure? ==>
              r.next.results == st.results && r.next.message == UploadFailed
  {
    match st.file
    case None => Transition(st.(message := SelectFileFirst), None)
    case Some(f) =>
      match outcome
      case Success(data) => Transition(st.(results := Some(data), message := IngestSucceeded), Some(Upload(f)))
      case Failure => Transition(st.(message := UploadFailed), Some(Upload(f)))
  }

  /** `handleTransformation`: without a file it only sets the prompt. With a file it reads
      the "Random Forest" entry's path unguarded, throwing when there is none; otherwise it
      sends the transformation with that path and shows the response's message, or the
      fixed error text on failure. Only the transformation message ever changes. */
  function HandleTransformation(st: State, transformation: string, features: seq<string>,
                                outcome: Response<string>): (r: Handled)
    ensures r.Threw? <==> st.file.Some? && (st.results.None? || RandomForest !in st.results.value)
    ensures r.Done? ==> Frame(st, r.step.next, {TransformationMessageSlot})
    ensures st.file.None? ==> r.Done? && r.step.request.None?
                              && r.step.next.transformationMessage == UploadFirst
    ensures r.Done? && st.file.Some? ==>
              && st.results.Some? && RandomForest in st.results.value
              && r.step.request == Some(Transform(transformation, features,
                                                  st.results.value[RandomForest].modelPath))
              && r.step.next.transformationMessage
                 == (if outcome.Success? then outcome.data else TransformFailed)
  {
    if st.file.None? then Done(Transition(st.(transformationMessage := UploadFirst), None))
    else if st.results.None? then Threw(NullResults)
    else if RandomForest !in st.results.value then Threw(NoRandomForestEntry)
    else
      var req := Transform(transformation, features, st.results.value[RandomForest].modelPath);
      match outcome
      case Success(text) => Done(Transition(st.(transformationMessage := text), Some(req)))
      case Failure => Done(Transition(st.(transformationMessage := TransformFailed), Some(req)))
  }

  /** `handleFreeze`: without results it only sets the prompt and sends nothing; otherwise it
      sends every model's path and shows the response's message, or the fixed error text. */
  function HandleFreeze(st: State, outcome: Response<string>): (r: Transition)
    ensures Frame(st, r.next, {FreezeMessageSlot})
    ensures r.request.Some? <==> st.results.Some?
    ensures st.results.None? ==> r.next.freezeMessage == TrainFirst
    ensures st.results.Some? ==>
              && r.request.value.Freeze?
              && r.request.value.modelPaths.Keys == st.results.value.Keys
              && (forall m :: m in st.results.value ==>
                    r.request.value.modelPaths[m] == st.results.value[m].modelPath)
              && r.next.freezeMessage == (if outcome.Success? then outcome.data else FreezeFailed)
  {
    match st.results
    case None => Transition(st.(freezeMessage := TrainFirst), None)
    case Some(res) =>
      var req := Freeze(ModelPaths(res));
      match outcome
      case Success(text) => Transition(st.(freezeMessage := text), Some(req))
      case Failure => Transition(st.(freezeMessage := FreezeFailed), Some(req))
  }

  /** `handleAutoTrain`: without a file it only sets the prompt; otherwise it sends the file
      reference (`objectUrl`, the result of `URL.createObjectURL(file)`) with the current
      parameters, and on success stores the response as the results, while on failure it
      sets the error message and keeps the previous results. */
  function HandleAutoTrain(st: State, objectUrl: string, outcome: Response<Results>): (r: Transition)
    ensures Frame(st, r.next, {MessageSlot, ResultsSlot})
    ensures r.request.Some? <==> st.file.Some?
    ensures st.file.None? ==> r.next.message == UploadFirst && r.next.results == st.results
    ensures st.file.Some? ==> r.request == Some(Train(TrainBody(objectUrl, st.trainingParams)))
    ensures st.file.Some? && outcome.Success? ==>
              r.next.results == Some(outcome.data) && r.next.message == TrainSucceeded
    ensures st.file.Some? && outcome.Failure? ==>
              r.next.results == st.results && r.next.message == TrainFailed
  {
    match st.file
    case None => Transition(st.(message := UploadFirst), None)
    case Some(_) =>
      var req := Train(TrainBody(objectUrl, st.trainingParams));
      match outcome
      case Success(data) => Transition(st.(results := Some(data), message := TrainSucceeded), Some(req))
      case Failure => Transition(st.(message := TrainFailed), Some(req))
  }

  /** Editing one training-parameter input. */
  function HandleParamEdit(st: State, f: ParamField, text: string): (r: State)
    ensures Frame(st, r, {ParamsSlot})
    ensures Get(r.trainingParams, f) == Text(text)
    ensures forall g :: g != f ==> Get(r.trainingParams, g) == Get(st.trainingParams, g)
  {
    st.(trainingParams := SetParam(st.trainingParams, f, text))
  }

  /** Clicking a navigation button: only the active tab changes. */
  function SelectTab(st: State, t: Tab): (r: State)
    ensures Frame(st, r, {ActiveTabSlot})
    ensures RenderedPanel(r.activeTab) == Some(t)
  {
    st.(activeTab := TabName(t))
  }

  /** The transformation names the two text inputs send. */
  const RemoveFeatures: string := "remove_features"
  const ConvertToNumbers: string := "convert_to_numbers"

  /** What the user can do on the dashboard, each network-bound action carrying the outcome
      of its request. */
  datatype Event =
    | ChooseFile(file: Option<File>)
    | ClickIngest(ingestOutcome: Response<Results>)
    | BlurRemoveFeatures(removeText: string, removeOutcome: Response<string>)
    | BlurConvertToNumbers(convertText: string, convertOutcome: Response<string>)
    | EditParam(field: ParamField, paramText: string)
    | ClickTrain(objectUrl: string, trainOutcome: Response<Results>)
    | ClickFreeze(freezeOutcome: Response<string>)
    | ClickTab(tab: Tab)

  /** The panel whose controls produce the event; navigation buttons are always shown. */
  function PanelOf(ev: Event): Option<Tab> {
    match ev
    case ChooseFile(_) => Some(DataIngestion)
    case ClickIngest(_) => Some(DataIngestion)
    case BlurRemoveFeatures(_, _) => Some(DataTransformation)
    case BlurConvertToNumbers(_, _) => Some(DataTransformation)
    case EditParam(_, _) => Some(AutoTrain)
    case ClickTrain(_, _) => Some(AutoTrain)
    case ClickFreeze(_) => Some(FreezeLearnings)
    case ClickTab(_) => None
  }

  /** The control that produces `ev` is on screen. */
  predicate Shown(st: State, ev: Event) {
    PanelOf(ev).None? || RenderedPanel(st.activeTab) == PanelOf(ev)
  }

  /** What every request the dashboard sends requires of the state it was sent from. */
  predicate Guarded(st: State, req: Request) {
    match req
    case Upload(f) => st.file == Some(f)
    case Transform(_, _, path) =>
      && st.file.Some? && st.results.Some? && RandomForest in st.results.value
      && path == st.results.value[RandomForest].modelPath
    case Train(body) =>
      && st.file.Some? && FilePathKey in body
      && forall f :: FieldKey(f) in body && body[FieldKey(f)] == Get(st.trainingParams, f)
    case Freeze(paths) =>
      && st.results.Some? && paths.Keys == st.results.value.Keys
      && forall m :: m in paths ==> paths[m] == st.results.value[m].modelPath
  }

  /** One event on the dashboard. A control that is not rendered cannot fire, and a thrown
      transformation leaves the state as it was. Every request sent meets its guard, the
      file and the parameters change only through their own inputs, and the tab only
      through the navigation bar. */
  function Dispatch(st: State, ev: Event): (r: Transition)
    ensures r.request.Some? ==> Guarded(st, r.request.value)
    ensures !ev.ChooseFile? ==> r.next.file == st.file
    ensures !ev.EditParam? ==> r.next.trainingParams == st.trainingParams
    ensures !ev.ClickTab? ==> r.next.activeTab == st.activeTab
  {
    if !Shown(st, ev) then Transition(st, None)
    else
      match ev
      case ChooseFile(f) => Transition(HandleFileChange(st, f), None)
      case ClickIngest(o) => HandleIngest(st, o)
      case BlurRemoveFeatures(text, o) => Settle(st, HandleTransformation(st, RemoveFeatures, Split(text, ','), o))
      case BlurConvertToNumbers(text, o) => Settle(st, HandleTransformation(st, ConvertToNumbers, Split(text, ','), o))
      case EditParam(f, text) => Transition(HandleParamEdit(st, f, text), None)
      case ClickTrain(url, o) => HandleAutoTrain(st, url, o)
      case ClickFreeze(o) => HandleFreeze(st, o)
      case ClickTab(t) => Transition(SelectTab(st, t), None)
  }

  /** A thrown handler leaves the state untouched and sends nothing. */
  function Settle(st: State, h: Handled): Transition {
    match h
    case Done(step) => step
    case Threw(_) => Transition(st, None)
  }

  /** The state after a sequence of events. */
  function Run(st: State, evs: seq<Event>): State
    decreases |evs|
  {
    if |evs| == 0 then st else Run(Dispatch(st, evs[0]).next, evs[1..])
  }

  /** One more event after a run is one more dispatch on the state the run reached. */
  lemma {:induction false} RunAppend(st: State, evs: seq<Event>, ev: Event)
    ensures Run(st, evs + [ev]) == Dispatch(Run(st, evs), ev).next
    decreases |evs|
  {
    if |evs| == 0 {
      assert [ev][1..] == [];
    } else {
      assert (evs + [ev])[1..] == evs[1..] + [ev];
      RunAppend(Dispatch(st, evs[0]).next, evs[1..], ev);
    }
  }

  /** The active tab always names one of the four panels, so `renderContent` never reaches
      its `null` default. */
  predicate ValidTab(st: State) {
    RenderedPanel(st.activeTab).Some?
  }

  /** From any state whose tab is valid, every run keeps it valid, and once results exist
      no event removes them (nothing ever sets them back to `null`). */
  lemma {:induction false} RunInvariants(st: State, evs: seq<Event>)
    requires ValidTab(st)
    ensures ValidTab(Run(st, evs))
    ensures st.results.Some? ==> Run(st, evs).results.Some?
    decreases |evs|
  {
    if |evs| > 0 {
      var r := Dispatch(st, evs[0]);
      if evs[0].ClickTab? && Shown(st, evs[0]) {
        RenderedPanelOfName(evs[0].tab);
      }
      assert ValidTab(r.next);
      assert st.results.Some? ==> r.next.results.Some?;
      RunInvariants(r.next, evs[1..]);
    }
  }

  lemma InitialIsValid()
    ensures ValidTab(Initial)
    ensures forall evs :: ValidTab(Run(Initial, evs))
  {
    forall evs ensures ValidTab(Run(Initial, evs)) {
      RunInvariants(Initial, evs);
    }
  }

  /** The results change only when a shown Ingest or Train button's request succeeds, and
      then they become exactly that response. */
  lemma ResultsOnlyFromResponses(st: State, ev: Event)
    ensures Dispatch(st, ev).next.results != st.results ==>
              && Shown(st, ev) && st.file.Some?
              && ((ev.ClickIngest? && ev.ingestOutcome.Success?
                   && Dispatch(st, ev).next.results == Some(ev.ingestOutcome.data))
                  || (ev.ClickTrain? && ev.trainOutcome.Success?
                      && Dispatch(st, ev).next.results == Some(ev.trainOutcome.data)))
  {
  }

  /** Switching tabs any number of times keeps the file, the results, the parameters and all
      three messages; the last tab clicked is the one shown. */
  lemma {:induction false} TabSwitchesKeepWork(st: State, tabs: seq<Tab>, evs: seq<Event>)
    requires |evs| == |tabs|
    requires forall i :: 0 <= i < |evs| ==> evs[i] == ClickTab(tabs[i])
    ensures Frame(st, Run(st, evs), {ActiveTabSlot})
    ensures |tabs| > 0 ==> RenderedPanel(Run(st, evs).activeTab) == Some(tabs[|tabs| - 1])
    decreases |evs|
  {
    if |evs| > 0 {
      var next := SelectTab(st, tabs[0]);
      assert Dispatch(st, evs[0]).next == next;
      TabSwitchesKeepWork(next, tabs[1..], evs[1..]);
      if |tabs| == 1 {
        assert Run(next, evs[1..]) == next;
      }
    }
  }

  /** The feature list a transformation input sends is its text split on commas: joining it
      back gives the text, empty pieces included, and no piece contains a comma. */
  lemma FeatureListRoundTrip(st: State, text: string, o: Response<string>)
    ensures var r := Dispatch(st, BlurRemoveFeatures(text, o));
            r.request.Some? ==> && r.request.value == Transform(RemoveFeatures, Split(text, ','), r.request.value.filePath)
                                && Join(r.request.value.features, ',') == text
  {
    JoinSplit(text, ',');
  }

  /** From the initial state nothing can be sent: there is no file to ingest, train on or
      transform, and no results to freeze. The defaults are 80/20/"gini"/10/100. */
  lemma InitialSendsNothing(o: Response<Results>, m: Response<string>, url: string, text: string)
    ensures Get(Initial.trainingParams, TrainingPercentage) == Num(80)
    ensures Get(Initial.trainingParams, TestingPercentage) == Num(20)
    ensures Get(Initial.trainingParams, Criterion) == Text("gini")
    ensures Get(Initial.trainingParams, MaxDepth) == Num(10)
    ensures Get(Initial.trainingParams, NEstimators) == Num(100)
    ensures HandleIngest(Initial, o) == Transition(Initial.(message := SelectFileFirst), None)
    ensures HandleAutoTrain(Initial, url, o) == Transition(Initial.(message := UploadFirst), None)
    ensures HandleFreeze(Initial, m) == Transition(Initial.(freezeMessage := TrainFirst), None)
    ensures HandleTransformation(Initial, RemoveFeatures, Split(text, ','), m)
            == Done(Transition(Initial.(transformationMessage := UploadFirst), None))
  {
  }
}
