/** The experiment detail screen: where the experiment it shows comes from,
    the links it builds, where it navigates after a save, the publish switch,
    and which parts of the page are shown in which state. */
module Details {
  import opened Options
  import opened ExperimentModel
  import opened Forms
  import opened JsText
  import R = ExperimentRepository
  import S = ExperimentSlice

  // ---------------------------------------------------------------- loading

  /** Where the effect takes the experiment from: the store's detail, the
      cached list, or a request to the server. */
  datatype Source = Cached(e: Experiment) | FromList(e: Experiment) | Fetch

  /** The choice made by the effect. `idParam` is `parseInt(id, 10)`, None
      standing for NaN, which equals no id. Looking in an empty list finds
      nothing, so the length test only skips a search that would fail. */
  function ChooseSource(detail: Option<Experiment>, experiments: seq<Experiment>, idParam: Option<int>): (s: Source)
    ensures s.Cached? <==> detail.Some? && idParam == Some(detail.value.id)
    ensures s.Cached? ==> s.e == detail.value
    ensures s.FromList? <==> !s.Cached? && idParam.Some? && SomeWithId(experiments, idParam.value)
    ensures s.FromList? ==> s.e.id == idParam.value && s.e == experiments[FindIndexById(experiments, idParam.value)]
    ensures s.Fetch? <==> !s.Cached? && !s.FromList?
  {
    if detail.Some? && idParam == Some(detail.value.id) then Cached(detail.value)
    else if |experiments| > 0 && idParam.Some? && FindById(experiments, idParam.value).Some? then
      FromList(FindById(experiments, idParam.value).value)
    else Fetch
  }

  /** The id as the request path prints it: its digits, or `NaN`. */
  function IdText(idParam: Option<int>): (r: string)
    ensures idParam.Some? ==> ParseInt(r) == idParam
    ensures idParam.None? ==> r == "NaN"
  {
    match idParam
    case Some(n) => (ParseIntOfIntToString(n, []); assert IntToString(n) + [] == IntToString(n); IntToString(n))
    case None => "NaN"
  }

  /** Once the fetched experiment is in the store's detail, loading the same
      id again is served from the store without a request. */
  lemma SecondLoadIsCached(e: Experiment, experiments: seq<Experiment>, idText: string)
    requires ParseInt(idText) == Some(e.id)
    ensures ChooseSource(Some(e), experiments, ParseInt(idText)) == Cached(e)
  {
  }

  // ---------------------------------------------------------------- links

  /** `backPath`: the public list unless the experiment is known to be the user's. */
  function BackPath(experiment: Option<Experiment>): (r: string)
    ensures r == "public" <==> experiment.None? || !experiment.value.owned
    ensures r != "public" ==> r == ""
  {
    if experiment.None? || !experiment.value.owned then "public" else ""
  }

  /** `buildPublicLink(id)`, with the configured link part. */
  function PublicLink(part: string, id: int): (r: string)
    ensures |r| == |part| + 12 + |IntToString(id)|
    ensures r[..|part|] == part && r[|part|..|part| + 12] == "/experiment/"
  {
    part + "/experiment/" + IntToString(id)
  }

  /** The public link ends in the experiment's id, which reads back as that id. */
  lemma PublicLinkNamesId(part: string, id: int)
    ensures var link := PublicLink(part, id);
      |link| > |part| + 12 && ParseInt(link[|part| + 12..]) == Some(id)
  {
    var link := PublicLink(part, id);
    assert link[|part| + 12..] == IntToString(id) + [];
    ParseIntOfIntToString(id, []);
  }

  // ---------------------------------------------------------------- after a save

  /** The path the save callback of the edit form pushes, if any: none on an
      error; the home list for a launched experiment; otherwise the wizard
      step of the variability mode the form held. */
  function AfterSave(outcome: S.SaveOutcome, mode: Option<string>, prefix: string): (r: Option<string>)
    ensures r.Some? ==> outcome.Saved?
    ensures outcome.Saved? && outcome.status == Some("LAUNCHED") ==> r == Some(prefix + "/")
    ensures outcome.Saved? && outcome.status != Some("LAUNCHED") ==>
              && (mode == Some("scenarioVariability") ==> r == Some(prefix + "/scenario-variability"))
              && (mode == Some("caseVariability") ==> r == Some(prefix + "/case-variability"))
              && (r.None? <==> mode != Some("scenarioVariability") && mode != Some("caseVariability"))
  {
    match outcome
    case Failed(_) => None
    case Saved(status) =>
      if status == Some("LAUNCHED") then Some(prefix + "/")
      else if mode == Some("scenarioVariability") then Some(prefix + "/scenario-variability")
      else if mode == Some("caseVariability") then Some(prefix + "/case-variability")
      else None
  }

  /** The edit form's data carries the route's id, so its save updates that
      experiment with a PUT. */
  lemma SubmitEditIsPut(es: seq<Entry>, idText: string)
    ensures R.SaveRequest(S.FirstSaveForm(SetEntry(es, "id", idText)))
            == R.Request(R.Put, "/experiments/" + idText + "/", None)
    ensures S.Launching(SetEntry(es, "id", idText)) <==> S.Launching(es)
  {
    LookupSetEntry(es, "id", idText, "id");
    LookupSetEntry(es, "id", idText, "execute_mode");
  }

  /** `String(b)`: how the form stores a boolean. */
  function BoolText(b: bool): (r: string)
    ensures r == "true" || r == "false"
    ensures (r == "true") == b
  {
    if b then "true" else "false"
  }

  /** The experiment after its publish switch flips: only `isPublic` differs. */
  function Toggled(e: Experiment): (r: Experiment)
    ensures r.isPublic == !e.isPublic
    ensures r.(isPublic := e.isPublic) == e
  {
    e.(isPublic := !e.isPublic)
  }

  /** The form the publish switch saves holds the new value under `public`. */
  lemma TogglePublishSendsNewValue(es: seq<Entry>, isPublic: bool)
    ensures Lookup(S.FirstSaveForm(SetEntry(es, "public", BoolText(!isPublic))), "public") == Some(BoolText(!isPublic))
  {
    LookupSetEntry(es, "public", BoolText(!isPublic), "public");
  }

  // ---------------------------------------------------------------- what is shown

  /** The parts of the page that are rendered. */
  datatype Panels = Panels(spinner: bool, editForm: bool, card: bool, publishSwitch: bool, publicLink: bool,
                           scenariosDownload: bool, variabilityDownload: bool, creatingProgress: bool,
                           resultsDownload: bool)

  /** What the screen renders for the local experiment and loading flag. */
  function VisiblePanels(experiment: Option<Experiment>, loading: bool): (p: Panels)
    ensures p.spinner == loading
    ensures p.editForm <==> experiment.Some? && experiment.value.state == NotLaunched
    ensures p.card <==> experiment.Some? && experiment.value.state != NotLaunched
    ensures !(p.editForm && p.card) && (experiment.Some? ==> p.editForm || p.card)
    ensures p.publishSwitch <==> p.card && experiment.value.owned
    ensures p.publicLink <==> p.card && experiment.value.isPublic
    ensures p.scenariosDownload <==> p.card && experiment.value.numberScenarios.GetOr(0) > 0
    ensures p.variabilityDownload <==> p.card
    ensures p.creatingProgress <==> experiment.Some? && experiment.value.state == Creating
    ensures p.resultsDownload <==> experiment.Some? && experiment.value.state == Created
    ensures !(p.creatingProgress && p.resultsDownload)
  {
    match experiment
    case None => Panels(loading, false, false, false, false, false, false, false, false)
    case Some(e) =>
      var card := e.state != NotLaunched;
      Panels(loading, !card, card, card && e.owned, card && e.isPublic,
             card && e.numberScenarios.GetOr(0) > 0, card, e.state == Creating, e.state == Created)
  }

  // ---------------------------------------------------------------- the screen

  /** The screen's local state: the experiment shown, the loading flag, and
      the paths pushed onto the history. */
  class DetailsView {
    var experiment: Option<Experiment>
    var loading: bool
    var history: seq<string>

    constructor ()
      ensures experiment == None && !loading && history == []
    {
      experiment := None;
      loading := false;
      history := [];
    }

    function Shown(): Panels
      reads this
    {
      VisiblePanels(experiment, loading)
    }

    /** The effect run for route id `idText`. `fetched` is the server's
        experiment, already converted, or the failure of the request; it is
        consulted only when neither the store's detail nor its list has the id.
        Returns the request issued, if any. */
    method LoadDetail(store: S.ExperimentStore, idText: string, fetched: Result<Experiment, string>)
      returns (request: Option<R.Request>)
      modifies this`experiment, this`loading, store`detail, store`seedLog
      ensures !loading && history == old(history)
      ensures var src := ChooseSource(old(store.detail), old(store.experiments), ParseInt(idText));
        && (request.Some? <==> src.Fetch?)
        && (request.Some? ==> request.value == R.GetRequest(IdText(ParseInt(idText))))
        && (!src.Fetch? ==> experiment == Some(src.e))
        && (src.Fetch? && fetched.Ok? ==> experiment == Some(fetched.value))
        && (src.Fetch? && fetched.Err? ==> experiment == None)
        && (src.Fetch? && fetched.Ok? ==> store.detail == Some(fetched.value) && store.seedLog == None)
        && (!(src.Fetch? && fetched.Ok?) ==> store.detail == old(store.detail) && store.seedLog == old(store.seedLog))
    {
      var idParam := ParseInt(idText);
      loading := true;
      experiment := None;
      request := None;
      var src := ChooseSource(store.detail, store.experiments, idParam);
      if src.Fetch? {
        request := Some(R.GetRequest(IdText(idParam)));
        if fetched.Ok? {
          store.SetExperimentDetail(fetched.value);
          experiment := Some(fetched.value);
        }
      } else {
        experiment := Some(src.e);
      }
      loading := false;
    }

    /** The edit form's save: the route id goes on the form and the
        experiment is saved. The save updates the experiment in the list in
        place, since the form now has an id. */
    static method SaveEdit(store: S.ExperimentStore, form: FormData, idText: string,
                           saved: Result<S.SaveResponse, string>, fetched: Result<Experiment, string>,
                           csvLogToJson: (string, Option<string>) -> S.SeedConf)
      returns (outcome: S.SaveOutcome, requests: seq<R.Request>, wizardConf: Option<S.SeedConf>)
      modifies form, store`experiments, store`pagination, store`detail, store`seedLog, store`error
      ensures |requests| >= 1 && requests[0] == R.Request(R.Put, "/experiments/" + idText + "/", None)
      ensures outcome.Failed? <==> saved.Err? || fetched.Err?
      ensures outcome.Saved? ==> outcome.status == S.SavedStatus(saved.value.status, S.Launching(old(form.entries)))
      ensures outcome.Failed? ==>
                && store.error == Some(outcome.error) && store.experiments == old(store.experiments)
                && store.pagination == old(store.pagination)
                && store.detail == old(store.detail) && store.seedLog == old(store.seedLog)
      ensures outcome.Saved? ==>
                var launch := S.Launching(old(form.entries));
                var e := S.SavedExperiment(fetched.value, launch);
                && store.experiments == S.ListAfterSave(old(store.experiments), e, true)
                && store.pagination == old(store.pagination) && store.error == old(store.error)
                && store.detail == (if S.PreSaved(saved.value, launch) then Some(e)
                                    else S.DetailInList(old(store.experiments), old(store.detail), e))
      ensures outcome.Failed? ==> wizardConf == None
      ensures outcome.Saved? && S.PreSaved(saved.value, S.Launching(old(form.entries))) ==>
                var conf := S.SeedConfOf(old(form.entries), csvLogToJson);
                wizardConf == Some(conf) && store.seedLog == Some(conf.caseConf)
      ensures outcome.Saved? && !S.PreSaved(saved.value, S.Launching(old(form.entries))) ==>
                wizardConf == None && store.seedLog == old(store.seedLog)
    {
      var before := form.entries;
      form.Set("id", idText);
      SubmitEditIsPut(before, idText);
      LookupSetEntry(before, "id", idText, "id");
      assert Lookup(form.entries, "id").Some? && S.Launching(form.entries) == S.Launching(before);
      S.SeedConfOfSetEntry(before, "id", idText, csvLogToJson);
      outcome, requests, wizardConf := store.SaveExperiment(form, saved, fetched, csvLogToJson);
    }

    /** The edit form's submit: the experiment is saved with the route id,
        and the callback navigates by the outcome and the mode the form held. */
    method SubmitEdit(store: S.ExperimentStore, form: FormData, idText: string, prefix: string,
                      saved: Result<S.SaveResponse, string>, fetched: Result<Experiment, string>,
                      csvLogToJson: (string, Option<string>) -> S.SeedConf)
      returns (outcome: S.SaveOutcome, requests: seq<R.Request>, wizardConf: Option<S.SeedConf>)
      modifies this`loading, this`history, form,
               store`experiments, store`pagination, store`detail, store`seedLog, store`error
      ensures !loading && experiment == old(experiment)
      ensures |requests| >= 1 && requests[0] == R.Request(R.Put, "/experiments/" + idText + "/", None)
      ensures outcome.Failed? <==> saved.Err? || fetched.Err?
      ensures outcome.Saved? && S.Launching(old(form.entries)) ==> history == old(history) + [prefix + "/"]
      ensures var target := AfterSave(outcome, Lookup(old(form.entries), "variability_mode"), prefix);
        history == old(history) + (if target.Some? then [target.value] else [])
      ensures outcome.Failed? ==>
                && store.error == Some(outcome.error) && store.experiments == old(store.experiments)
                && store.pagination == old(store.pagination)
                && store.detail == old(store.detail) && store.seedLog == old(store.seedLog)
      ensures outcome.Saved? ==>
                var launch := S.Launching(old(form.entries));
                var e := S.SavedExperiment(fetched.value, launch);
                && store.experiments == S.ListAfterSave(old(store.experiments), e, true)
                && store.pagination == old(store.pagination) && store.error == old(store.error)
                && store.detail == (if S.PreSaved(saved.value, launch) then Some(e)
                                    else S.DetailInList(old(store.experiments), old(store.detail), e))
      ensures outcome.Failed? ==> wizardConf == None
      ensures outcome.Saved? && S.PreSaved(saved.value, S.Launching(old(form.entries))) ==>
                var conf := S.SeedConfOf(old(form.entries), csvLogToJson);
                wizardConf == Some(conf) && store.seedLog == Some(conf.caseConf)
      ensures outcome.Saved? && !S.PreSaved(saved.value, S.Launching(old(form.entries))) ==>
                wizardConf == None && store.seedLog == old(store.seedLog)
    {
      var mode := form.Get("variability_mode");
      loading := true;
      outcome, requests, wizardConf := SaveEdit(store, form, idText, saved, fetched, csvLogToJson);
      loading := false;
      var target := AfterSave(outcome, mode, prefix);
      if target.Some? {
        history := history + [target.value];
      }
    }

    /** The publish switch: `public` is set to the opposite of the shown
        value on `form` (the experiment's form data) and the experiment is
        saved; the callback then shows the experiment with the flipped value,
        whatever the outcome of the save. */
    method TogglePublish(store: S.ExperimentStore, form: FormData,
                         saved: Result<S.SaveResponse, string>, fetched: Result<Experiment, string>,
                         csvLogToJson: (string, Option<string>) -> S.SeedConf)
      returns (outcome: S.SaveOutcome, requests: seq<R.Request>, wizardConf: Option<S.SeedConf>)
      requires experiment.Some?
      modifies this`experiment, form,
               store`experiments, store`pagination, store`detail, store`seedLog, store`error
      ensures experiment == Some(Toggled(old(experiment).value))
      ensures |requests| >= 1
      ensures requests[0] == R.SaveRequest(S.FirstSaveForm(SetEntry(old(form.entries), "public",
                                                                    BoolText(!old(experiment).value.isPublic))))
      ensures outcome.Failed? <==> saved.Err? || fetched.Err?
      ensures outcome.Failed? ==>
                && store.error == Some(outcome.error) && store.experiments == old(store.experiments)
                && store.pagination == old(store.pagination)
                && store.detail == old(store.detail) && store.seedLog == old(store.seedLog)
      ensures outcome.Saved? ==>
                var launch := S.Launching(old(form.entries));
                var e := S.SavedExperiment(fetched.value, launch);
                && store.experiments == S.ListAfterSave(old(store.experiments), e, Lookup(old(form.entries), "id").Some?)
                && store.pagination == old(store.pagination) && store.error == old(store.error)
                && store.detail == (if S.PreSaved(saved.value, launch) then Some(e)
                                    else if Lookup(old(form.entries), "id").Some?
                                    then S.DetailInList(old(store.experiments), old(store.detail), e)
                                    else old(store.detail))
      ensures outcome.Failed? ==> wizardConf == None
      ensures outcome.Saved? && S.PreSaved(saved.value, S.Launching(old(form.entries))) ==>
                var conf := S.SeedConfOf(old(form.entries), csvLogToJson);
                wizardConf == Some(conf) && store.seedLog == Some(conf.caseConf)
      ensures outcome.Saved? && !S.PreSaved(saved.value, S.Launching(old(form.entries))) ==>
                wizardConf == None && store.seedLog == old(store.seedLog)
    {
      var shown := experiment.value;
      var newValue := !shown.isPublic;
      LookupSetEntry(form.entries, "public", BoolText(newValue), "id");
      LookupSetEntry(form.entries, "public", BoolText(newValue), "execute_mode");
      form.Set("public", BoolText(newValue));
      assert Lookup(form.entries, "id") == Lookup(old(form.entries), "id");
      assert S.Launching(form.entries) == S.Launching(old(form.entries));
      S.SeedConfOfSetEntry(old(form.entries), "public", BoolText(newValue), csvLogToJson);
      outcome, requests, wizardConf := store.SaveExperiment(form, saved, fetched, csvLogToJson);
      experiment := Some(Toggled(shown));
    }
  }
}
