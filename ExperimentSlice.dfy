/** The experiment store: the cached list with its pagination, the detail
    being viewed, the loading flag and the last error; its reducers; and the
    thunks that load the list, add one experiment, and save an experiment. */
module ExperimentSlice {
  import opened Options
  import opened ExperimentModel
  import opened Forms
  import opened JsText
  import R = ExperimentRepository

  // ---------------------------------------------------------------- list rules

  /** setExperimentInList's list: the first experiment with the payload's id
      is replaced by the payload; with no such experiment nothing changes. */
  function ReplaceById(ls: seq<Experiment>, e: Experiment): (r: seq<Experiment>)
    ensures |r| == |ls|
    ensures FindIndexById(ls, e.id) == -1 ==> r == ls
    ensures FindIndexById(ls, e.id) >= 0 ==>
              r[FindIndexById(ls, e.id)] == e
              && forall j :: 0 <= j < |ls| && j != FindIndexById(ls, e.id) ==> r[j] == ls[j]
  {
    var i := FindIndexById(ls, e.id);
    if i == -1 then ls else ls[i := e]
  }

  /** Replacing in place keeps ids unique, as every id stays where it was. */
  lemma ReplaceByIdKeepsUnique(ls: seq<Experiment>, e: Experiment)
    requires UniqueIds(ls)
    ensures UniqueIds(ReplaceById(ls, e))
    ensures forall j :: 0 <= j < |ls| ==> ReplaceById(ls, e)[j].id == ls[j].id
  {
  }

  /** The first `n` elements of `ls`, each kept only if it is the first with its id. */
  function KeepFirsts(ls: seq<Experiment>, n: nat): (r: seq<Experiment>)
    requires n <= |ls|
    ensures UniqueIds(r)
    ensures forall k :: 0 <= k < |r| ==>
              0 <= FindIndexById(ls, r[k].id) < n && r[k] == ls[FindIndexById(ls, r[k].id)]
    decreases n
  {
    if n == 0 then []
    else
      var prev := KeepFirsts(ls, n - 1);
      if FindIndexById(ls, ls[n - 1].id) == n - 1 then
        var r := prev + [ls[n - 1]];
        assert forall k :: 0 <= k < |prev| ==> prev[k].id != ls[n - 1].id;
        r
      else prev
  }

  /** `ls.filter((e, i, ls) => ls.findIndex(x => x.id === e.id) === i)`:
      the first experiment of each id, in order. */
  function DedupById(ls: seq<Experiment>): (r: seq<Experiment>)
    ensures UniqueIds(r)
    ensures forall k :: 0 <= k < |r| ==> 0 <= FindIndexById(ls, r[k].id) && r[k] == ls[FindIndexById(ls, r[k].id)]
    ensures forall a, b :: 0 <= a < b < |r| ==> FindIndexById(ls, r[a].id) < FindIndexById(ls, r[b].id)
  {
    KeepFirstsInOrder(ls, |ls|);
    var r := KeepFirsts(ls, |ls|);
    r
  }

  /** The filter keeps the order of the prefix: what it keeps stands in the
      order of the positions it was taken from. */
  lemma {:induction false} KeepFirstsInOrder(ls: seq<Experiment>, n: nat)
    requires n <= |ls|
    ensures forall a, b :: 0 <= a < b < |KeepFirsts(ls, n)| ==>
              FindIndexById(ls, KeepFirsts(ls, n)[a].id) < FindIndexById(ls, KeepFirsts(ls, n)[b].id)
    decreases n
  {
    if n > 0 {
      KeepFirstsInOrder(ls, n - 1);
      var prev := KeepFirsts(ls, n - 1);
      if FindIndexById(ls, ls[n - 1].id) == n - 1 {
        var r := prev + [ls[n - 1]];
        forall a, b | 0 <= a < b < |r|
          ensures FindIndexById(ls, r[a].id) < FindIndexById(ls, r[b].id)
        {
          assert r[a] == prev[a];
          if b < |prev| {
            assert r[b] == prev[b];
          }
        }
      }
    }
  }

  /** No id is lost: every id of the batch is still there after the filter. */
  lemma {:induction false} KeepFirstsKeepsIds(ls: seq<Experiment>, n: nat, i: nat)
    requires i < n <= |ls|
    ensures SomeWithId(KeepFirsts(ls, n), ls[i].id)
    decreases n
  {
    var prev := KeepFirsts(ls, n - 1);
    var f := FindIndexById(ls, ls[i].id);
    if f == n - 1 {
      var r := prev + [ls[n - 1]];
      assert r[|prev|].id == ls[i].id;
    } else {
      if i < n - 1 {
        KeepFirstsKeepsIds(ls, n - 1, i);
      } else {
        KeepFirstsKeepsIds(ls, n - 1, f);
        assert ls[f].id == ls[i].id;
      }
      if FindIndexById(ls, ls[n - 1].id) == n - 1 {
        var k :| 0 <= k < |prev| && prev[k].id == ls[i].id;
        assert (prev + [ls[n - 1]])[k] == prev[k];
      }
    }
  }

  lemma DedupByIdKeepsIds(ls: seq<Experiment>)
    ensures forall i :: 0 <= i < |ls| ==> SomeWithId(DedupById(ls), ls[i].id)
  {
    forall i | 0 <= i < |ls|
      ensures SomeWithId(DedupById(ls), ls[i].id)
    {
      KeepFirstsKeepsIds(ls, |ls|, i);
    }
  }

  /** A batch whose ids are already unique passes the filter untouched. */
  lemma {:induction false} KeepFirstsOfUnique(ls: seq<Experiment>, n: nat)
    requires UniqueIds(ls) && n <= |ls|
    ensures KeepFirsts(ls, n) == ls[..n]
    decreases n
  {
    if n > 0 {
      KeepFirstsOfUnique(ls, n - 1);
      UniqueIdsFindIndex(ls, n - 1);
      assert ls[..n] == ls[..n - 1] + [ls[n - 1]];
    }
  }

  lemma DedupByIdOfUnique(ls: seq<Experiment>)
    requires UniqueIds(ls)
    ensures DedupById(ls) == ls
  {
    KeepFirstsOfUnique(ls, |ls|);
    assert ls[..|ls|] == ls;
  }

  /** The pagination loadExperiments stores: the page moves on by one exactly
      when the response has a next page. */
  function NextPagination(currentPage: int, count: int, next: Option<string>): (p: Pagination)
    ensures p.page == currentPage + 1 <==> next.Some?
    ensures p.page == currentPage <==> next.None?
    ensures p.hasNext <==> next.Some?
    ensures p.total == count
  {
    Pagination(currentPage + (if next.Some? then 1 else 0), count, next.Some?)
  }

  /** addExperiment's list: `e` is appended unless its id is already listed. */
  function AddIfAbsent(ls: seq<Experiment>, e: Experiment): (r: seq<Experiment>)
    ensures SomeWithId(r, e.id)
    ensures SomeWithId(ls, e.id) ==> r == ls
    ensures !SomeWithId(ls, e.id) ==> r == ls + [e]
    ensures UniqueIds(ls) ==> UniqueIds(r)
  {
    if SomeWithId(ls, e.id) then ls
    else
      var r := ls + [e];
      assert SomeWithId(r, e.id) by { assert r[|ls|].id == e.id; }
      r
  }

  // ---------------------------------------------------------------- saving

  /** The form the first save sends: `seedLog` and `execute_mode` removed. */
  function FirstSaveForm(es: seq<Entry>): (r: seq<Entry>)
    ensures Lookup(r, "seedLog") == None && Lookup(r, "execute_mode") == None
    ensures forall name :: name != "seedLog" && name != "execute_mode" ==> Lookup(r, name) == Lookup(es, name)
  {
    var r := Without(Without(es, "seedLog"), "execute_mode");
    forall name
      ensures Lookup(r, name) == if name == "seedLog" || name == "execute_mode" then None else Lookup(es, name)
    {
      LookupWithout(es, "seedLog", name);
      LookupWithout(Without(es, "seedLog"), "execute_mode", name);
      LookupWithout(es, "seedLog", "seedLog");
      LookupWithout(Without(es, "seedLog"), "execute_mode", "seedLog");
    }
    r
  }

  /** The form the launching save sends: the saved id and `execute_mode` set
      again on the form the first save sent. */
  function LaunchForm(es: seq<Entry>, id: int): (r: seq<Entry>)
    ensures Lookup(r, "id") == Some(IntToString(id)) && Lookup(r, "execute_mode") == Some("true")
    ensures forall name :: name != "id" && name != "execute_mode" ==> Lookup(r, name) == Lookup(es, name)
  {
    var withId := SetEntry(es, "id", IntToString(id));
    var r := SetEntry(withId, "execute_mode", "true");
    forall name
      ensures Lookup(r, name) == if name == "execute_mode" then Some("true")
                                 else if name == "id" then Some(IntToString(id)) else Lookup(es, name)
    {
      LookupSetEntry(es, "id", IntToString(id), name);
      LookupSetEntry(withId, "execute_mode", "true", name);
      LookupSetEntry(es, "id", IntToString(id), "id");
    }
    r
  }

  /** The launching save always updates the saved experiment in place. */
  lemma LaunchIsPut(es: seq<Entry>, id: int)
    ensures R.SaveRequest(LaunchForm(es, id)) == R.Request(R.Put, "/experiments/" + IntToString(id) + "/", None)
    ensures Lookup(LaunchForm(es, id), "execute_mode") == Some("true")
  {
    LookupSetEntry(es, "id", IntToString(id), "id");
    LookupSetEntry(SetEntry(es, "id", IntToString(id)), "execute_mode", "true", "id");
    LookupSetEntry(SetEntry(es, "id", IntToString(id)), "execute_mode", "true", "execute_mode");
  }

  /** `${response.id || form.get("id")}`: a missing or zero id in the
      response falls back to the form's id, and a missing one prints as `null`. */
  function SavedIdText(responseId: Option<int>, formId: Option<string>): (r: string)
    ensures responseId.Some? && responseId.value != 0 ==> r == IntToString(responseId.value)
    ensures (responseId.None? || responseId.value == 0) && formId.Some? ==> r == formId.value
    ensures (responseId.None? || responseId.value == 0) && formId.None? ==> r == "null"
  {
    if responseId.Some? && responseId.value != 0 then IntToString(responseId.value)
    else if formId.Some? then formId.value
    else "null"
  }

  /** The form asks for the experiment to be launched once saved. */
  predicate Launching(es: seq<Entry>): (b: bool)
    ensures b ==> Entry("execute_mode", "true") in es
    ensures (forall e :: e in es ==> e.name != "execute_mode") ==> !b
  {
    Lookup(es, "execute_mode") == Some("true")
  }

  /** The experiment saveExperiment stores: the one read back, marked as
      being created when it was launched. */
  function SavedExperiment(fetched: Experiment, launch: bool): (e: Experiment)
    ensures e.id == fetched.id
    ensures launch ==> e.state == Creating
    ensures !launch ==> e == fetched
  {
    if launch then fetched.(state := Creating) else fetched
  }

  /** The status handed to the callback: a launch is reported as `LAUNCHED`. */
  function SavedStatus(status: Option<string>, launch: bool): (r: Option<string>)
    ensures launch ==> r == Some("LAUNCHED")
    ensures !launch ==> r == status
  {
    if launch then Some("LAUNCHED") else status
  }

  /** The list after a save: an experiment that had an id is updated where it
      stands, a new one goes first. */
  function ListAfterSave(ls: seq<Experiment>, e: Experiment, hasPreviousId: bool): (r: seq<Experiment>)
    ensures hasPreviousId ==> r == ReplaceById(ls, e)
    ensures !hasPreviousId ==> |r| == |ls| + 1 && r[0] == e && r[1..] == ls
  {
    if hasPreviousId then ReplaceById(ls, e) else [e] + ls
  }

  /** setExperimentInList's detail: replaced by the payload when the payload's
      id is listed and the detail has that id, kept otherwise. */
  function DetailInList(ls: seq<Experiment>, detail: Option<Experiment>, e: Experiment): (r: Option<Experiment>)
    ensures r == detail || r == Some(e)
    ensures r != detail ==> SomeWithId(ls, e.id) && detail.Some? && detail.value.id == e.id
    ensures SomeWithId(ls, e.id) && detail.Some? && detail.value.id == e.id ==> r == Some(e)
  {
    if FindIndexById(ls, e.id) != -1 && detail.Some? && detail.value.id == e.id then Some(e) else detail
  }

  /** What the save endpoint answers. */
  datatype SaveResponse = SaveResponse(id: Option<int>, status: Option<string>)

  /** The two parts `csvLogToJSON` splits the seed log into. */
  datatype SeedConf = SeedConf(caseConf: string, scenarioConf: string)

  /** The answer names a pre-saved experiment: its seed configuration goes
      to the detail and to the wizard. A launched save never is one. */
  predicate PreSaved(response: SaveResponse, launch: bool): (b: bool)
    ensures b <==> !launch && response.id.Some? && response.status == Some("PRE_SAVED")
  {
    response.id.Some? && SavedStatus(response.status, launch) == Some("PRE_SAVED")
  }

  /** The seed configuration a pre-saved experiment hands on: `csvLogToJSON`
      of the form's seed log (empty when absent) and its `special_colnames`. */
  function SeedConfOf(es: seq<Entry>, csvLogToJson: (string, Option<string>) -> SeedConf): SeedConf {
    csvLogToJson(Lookup(es, "seedLog").GetOr(""), Lookup(es, "special_colnames"))
  }

  /** Setting a field other than the seed log and `special_colnames` leaves
      the seed configuration as it was. */
  lemma SeedConfOfSetEntry(es: seq<Entry>, name: string, value: string,
                           csvLogToJson: (string, Option<string>) -> SeedConf)
    requires name != "seedLog" && name != "special_colnames"
    ensures SeedConfOf(SetEntry(es, name, value), csvLogToJson) == SeedConfOf(es, csvLogToJson)
  {
    LookupSetEntry(es, name, value, "seedLog");
    LookupSetEntry(es, name, value, "special_colnames");
  }

  /** The callback's arguments: a status, or the error. */
  datatype SaveOutcome = Saved(status: Option<string>) | Failed(error: string)

  /** What the list page returns. */
  datatype ListResponse = ListResponse(count: int, next: Option<string>, results: seq<Experiment>)

  // ---------------------------------------------------------------- the store

  class ExperimentStore {
    var experiments: seq<Experiment>
    var pagination: Pagination
    var detail: Option<Experiment>
    var seedLog: Option<string>
    var isLoading: bool
    var error: Option<string>

    /** The initial state: no experiments, page 1, nothing loaded yet. */
    constructor ()
      ensures experiments == [] && pagination == Pagination(1, 0, true)
      ensures detail == None && seedLog == None && !isLoading && error == None
    {
      experiments := [];
      pagination := Pagination(1, 0, true);
      detail := None;
      seedLog := None;
      isLoading := false;
      error := None;
    }

    method SetLoading(loading: bool)
      modifies this`isLoading
      ensures isLoading == loading
    {
      isLoading := loading;
    }

    /** addExperiments: the batch is appended, the pagination replaced. */
    method AddExperiments(batch: seq<Experiment>, p: Pagination)
      modifies this`experiments, this`pagination
      ensures experiments == old(experiments) + batch && pagination == p
    {
      experiments := experiments + batch;
      pagination := p;
    }

    /** setExperiments: list and pagination replaced. */
    method SetExperiments(list: seq<Experiment>, p: Pagination)
      modifies this`experiments, this`pagination
      ensures experiments == list && pagination == p
    {
      experiments := list;
      pagination := p;
    }

    /** setExperimentInList: the first experiment with the payload's id is
        replaced, and so is the detail when it has that id; with no listed
        experiment of that id nothing changes, the detail included. */
    method SetExperimentInList(e: Experiment)
      modifies this`experiments, this`detail
      ensures experiments == ReplaceById(old(experiments), e)
      ensures detail == DetailInList(old(experiments), old(detail), e)
    {
      var index := FindIndexById(experiments, e.id);
      if index != -1 {
        experiments := experiments[index := e];
        if detail.Some? && detail.value.id == e.id {
          detail := Some(e);
        }
      }
    }

    method SetExperiment(d: Option<Experiment>, log: Option<string>)
      modifies this`detail, this`seedLog
      ensures detail == d && seedLog == log
    {
      detail := d;
      seedLog := log;
    }

    method SetError(e: string)
      modifies this`error
      ensures error == Some(e)
    {
      error := Some(e);
    }

    /** loadExperiments: asks for the current page; unless the server's count
        equals the number of experiments held, appends the batch without
        repeated ids and moves the pagination on. A failure is recorded. */
    method LoadExperiments(response: Result<ListResponse, string>) returns (request: R.Request)
      modifies this`experiments, this`pagination, this`isLoading, this`error
      ensures request == R.ListRequest(old(pagination.page)) && !isLoading
      ensures response.Err? ==> error == Some(response.error)
      ensures response.Err? || response.value.count == |old(experiments)| ==>
                experiments == old(experiments) && pagination == old(pagination)
      ensures response.Ok? && response.value.count != |old(experiments)| ==>
                experiments == old(experiments) + DedupById(response.value.results)
                && pagination == NextPagination(old(pagination.page), response.value.count, response.value.next)
      ensures response.Ok? ==> error == old(error)
    {
      SetLoading(true);
      var currentPage := pagination.page;
      request := R.ListRequest(currentPage);
      match response {
        case Err(e) =>
          SetError(e);
        case Ok(r) =>
          if r.count != |experiments| {
            AddExperiments(DedupById(r.results), NextPagination(currentPage, r.count, r.next));
          }
      }
      SetLoading(false);
    }

    /** addExperiment. */
    method AddExperiment(e: Experiment)
      modifies this`experiments, this`pagination
      ensures experiments == AddIfAbsent(old(experiments), e) && pagination == old(pagination)
    {
      if !SomeWithId(experiments, e.id) {
        AddExperiments([e], pagination);
      }
    }

    /** setExperimentDetail: the detail, with no seed log. */
    method SetExperimentDetail(e: Experiment)
      modifies this`detail, this`seedLog
      ensures detail == Some(e) && seedLog == None
    {
      SetExperiment(Some(e), None);
    }

    /** The first steps of saveExperiment: note whether the form has an id,
        then take `seedLog` and `execute_mode` out of it. */
    static method StripForm(form: FormData)
      returns (formId: Option<string>, log: string, executeMode: string)
      modifies form
      ensures form.entries == FirstSaveForm(old(form.entries))
      ensures formId == Lookup(old(form.entries), "id")
      ensures log == Lookup(old(form.entries), "seedLog").GetOr("")
      ensures executeMode == "true" <==> Launching(old(form.entries))
    {
      formId := form.Get("id");
      log := form.Get("seedLog").GetOr("");
      form.Delete("seedLog");
      LookupWithout(old(form.entries), "seedLog", "execute_mode");
      executeMode := form.Get("execute_mode").GetOr("false");
      form.Delete("execute_mode");
    }

    /** The launching save: the saved id and `execute_mode` go back on the form. */
    static method Launch(form: FormData, id: int) returns (request: R.Request)
      modifies form
      ensures form.entries == LaunchForm(old(form.entries), id)
      ensures request == R.SaveRequest(form.entries)
    {
      form.Set("id", IntToString(id));
      form.Set("execute_mode", "true");
      request := R.SaveRequest(form.entries);
    }

    /** saveExperiment once the experiment is read back: launch it if asked,
        hand a pre-saved experiment's seed configuration to the detail and the
        wizard, then update it in the list or put it first. */
    method ApplySaved(form: FormData, fetched: Experiment, response: SaveResponse, launch: bool,
                      log: string, hasPreviousId: bool, csvLogToJson: (string, Option<string>) -> SeedConf)
      returns (status: Option<string>, extra: seq<R.Request>, wizardConf: Option<SeedConf>)
      modifies this`experiments, this`pagination, this`detail, this`seedLog, form
      ensures status == SavedStatus(response.status, launch)
      ensures experiments == ListAfterSave(old(experiments), SavedExperiment(fetched, launch), hasPreviousId)
      ensures pagination == old(pagination)
      ensures launch ==> extra == [R.SaveRequest(form.entries)] && form.entries == LaunchForm(old(form.entries), fetched.id)
      ensures !launch ==> extra == [] && form.entries == old(form.entries)
      ensures PreSaved(response, launch) ==>
                var conf := csvLogToJson(log, Lookup(old(form.entries), "special_colnames"));
                && wizardConf == Some(conf) && seedLog == Some(conf.caseConf)
                && detail == Some(SavedExperiment(fetched, launch))
      ensures !PreSaved(response, launch) ==>
                && wizardConf == None && seedLog == old(seedLog)
                && detail == if hasPreviousId then DetailInList(old(experiments), old(detail), SavedExperiment(fetched, launch))
                             else old(detail)
    {
      var e := fetched;
      status := response.status;
      extra := [];
      if launch {
        var again := Launch(form, e.id);
        extra := [again];
        e := e.(state := Creating);
        status := Some("LAUNCHED");
      }
      wizardConf := None;
      if response.id.Some? && status == Some("PRE_SAVED") {
        var conf := csvLogToJson(log, form.Get("special_colnames"));
        SetExperiment(Some(e), Some(conf.caseConf));
        wizardConf := Some(conf);
      }
      if hasPreviousId {
        SetExperimentInList(e);
      } else {
        SetExperiments([e] + experiments, pagination);
      }
    }

    /** The `try` of saveExperiment and its `catch`, on the form already
        stripped: save, read the experiment back, and apply it; a failure of
        either request is recorded and changes nothing else. */
    method SaveStripped(form: FormData, formId: Option<string>, log: string, launch: bool,
                        saved: Result<SaveResponse, string>, fetched: Result<Experiment, string>,
                        csvLogToJson: (string, Option<string>) -> SeedConf)
      returns (outcome: SaveOutcome, requests: seq<R.Request>, wizardConf: Option<SeedConf>)
      modifies this`experiments, this`pagination, this`detail, this`seedLog, this`error, form
      ensures |requests| >= 1 && requests[0] == R.SaveRequest(old(form.entries))
      ensures outcome.Failed? <==> saved.Err? || fetched.Err?
      ensures saved.Err? ==> |requests| == 1
      ensures saved.Ok? && fetched.Err? ==>
                |requests| == 2 && requests[1] == R.GetRequest(SavedIdText(saved.value.id, formId))
      ensures outcome.Failed? ==>
                && error == Some(outcome.error) && wizardConf == None && form.entries == old(form.entries)
                && experiments == old(experiments) && pagination == old(pagination)
                && detail == old(detail) && seedLog == old(seedLog)
      ensures outcome.Saved? ==>
                && |requests| >= 2
                && requests[1] == R.GetRequest(SavedIdText(saved.value.id, formId))
                && outcome.status == SavedStatus(saved.value.status, launch)
                && pagination == old(pagination) && error == old(error)
                && experiments == ListAfterSave(old(experiments), SavedExperiment(fetched.value, launch), formId.Some?)
                && (launch ==> |requests| == 3 && requests[2] == R.SaveRequest(form.entries)
                               && form.entries == LaunchForm(old(form.entries), fetched.value.id))
                && (!launch ==> |requests| == 2 && form.entries == old(form.entries))
      ensures outcome.Saved? && PreSaved(saved.value, launch) ==>
                var conf := csvLogToJson(log, Lookup(old(form.entries), "special_colnames"));
                && wizardConf == Some(conf) && seedLog == Some(conf.caseConf)
                && detail == Some(SavedExperiment(fetched.value, launch))
      ensures outcome.Saved? && !PreSaved(saved.value, launch) ==>
                && wizardConf == None && seedLog == old(seedLog)
                && detail == if formId.Some? then DetailInList(old(experiments), old(detail), SavedExperiment(fetched.value, launch))
                             else old(detail)
    {
      wizardConf := None;
      requests := [R.SaveRequest(form.entries)];
      if saved.Err? {
        SetError(saved.error);
        outcome := Failed(saved.error);
        return;
      }
      var response := saved.value;
      requests := requests + [R.GetRequest(SavedIdText(response.id, formId))];
      if fetched.Err? {
        SetError(fetched.error);
        outcome := Failed(fetched.error);
        return;
      }
      var status, extra;
      status, extra, wizardConf := ApplySaved(form, fetched.value, response, launch, log,
                                              formId.Some?, csvLogToJson);
      requests := requests + extra;
      outcome := Saved(status);
    }

    /** saveExperiment. `saved` is the save endpoint's answer, `fetched` the
        experiment read back; `csvLogToJson` splits a seed log. Returns the
        callback's arguments, the requests issued in order, and the
        configurations handed to the wizard store. */
    method SaveExperiment(form: FormData, saved: Result<SaveResponse, string>,
                          fetched: Result<Experiment, string>,
                          csvLogToJson: (string, Option<string>) -> SeedConf)
      returns (outcome: SaveOutcome, requests: seq<R.Request>, wizardConf: Option<SeedConf>)
      modifies this`experiments, this`pagination, this`detail, this`seedLog, this`error, form
      ensures |requests| >= 1 && requests[0] == R.SaveRequest(FirstSaveForm(old(form.entries)))
      ensures outcome.Failed? <==> saved.Err? || fetched.Err?
      ensures saved.Err? ==> |requests| == 1
      ensures saved.Ok? && fetched.Err? ==>
                |requests| == 2 && requests[1] == R.GetRequest(SavedIdText(saved.value.id, Lookup(old(form.entries), "id")))
      ensures outcome.Failed? ==>
                && error == Some(outcome.error) && wizardConf == None
                && experiments == old(experiments) && pagination == old(pagination) && detail == old(detail)
      ensures outcome.Saved? ==>
                && |requests| >= 2
                && requests[1] == R.GetRequest(SavedIdText(saved.value.id, Lookup(old(form.entries), "id")))
                && outcome.status == SavedStatus(saved.value.status, Launching(old(form.entries)))
                && pagination == old(pagination) && error == old(error)
                && experiments == ListAfterSave(old(experiments), SavedExperiment(fetched.value, Launching(old(form.entries))),
                                                Lookup(old(form.entries), "id").Some?)
      ensures outcome.Saved? && Launching(old(form.entries)) ==>
                && |requests| == 3 && requests[2] == R.SaveRequest(form.entries)
                && form.entries == LaunchForm(FirstSaveForm(old(form.entries)), fetched.value.id)
      ensures outcome.Saved? && !Launching(old(form.entries)) ==>
                |requests| == 2 && form.entries == FirstSaveForm(old(form.entries))
      ensures outcome.Failed? ==> form.entries == FirstSaveForm(old(form.entries)) && seedLog == old(seedLog)
      ensures outcome.Saved? && PreSaved(saved.value, Launching(old(form.entries))) ==>
                var conf := SeedConfOf(old(form.entries), csvLogToJson);
                && wizardConf == Some(conf) && seedLog == Some(conf.caseConf)
                && detail == Some(SavedExperiment(fetched.value, Launching(old(form.entries))))
      ensures outcome.Saved? && !PreSaved(saved.value, Launching(old(form.entries))) ==>
                && wizardConf == None && seedLog == old(seedLog)
                && detail == if Lookup(old(form.entries), "id").Some?
                             then DetailInList(old(experiments), old(detail),
                                               SavedExperiment(fetched.value, Launching(old(form.entries))))
                             else old(detail)
    {
      var formId, log, executeMode := StripForm(form);
      assert Lookup(form.entries, "special_colnames") == Lookup(old(form.entries), "special_colnames");
      outcome, requests, wizardConf := SaveStripped(form, formId, log, executeMode == "true", saved, fetched, csvLogToJson);
    }
  }
}
