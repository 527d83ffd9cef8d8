/** The experiment records the store and the screens share, and the id
    lookups both make (`findIndex`, `find` and `some` keyed by id). */
module ExperimentModel {
  import opened Options

  /** The states the screens distinguish; any other value of the enum is kept as its code. */
  datatype ExperimentState = NotLaunched | Creating | Created | OtherState(code: int)

  /** The fields of an experiment the modelled logic reads. */
  datatype Experiment = Experiment(id: int, name: string, state: ExperimentState, owned: bool,
                                   isPublic: bool, numberScenarios: Option<int>)

  datatype Pagination = Pagination(page: int, total: int, hasNext: bool)

  /** `ls.findIndex(e => e.id === id)`: the first position holding `id`, or -1. */
  function FindIndexById(ls: seq<Experiment>, id: int): (r: int)
    ensures -1 <= r < |ls|
    ensures r >= 0 ==> ls[r].id == id && forall j :: 0 <= j < r ==> ls[j].id != id
    ensures r == -1 <==> forall j :: 0 <= j < |ls| ==> ls[j].id != id
  {
    if ls == [] then -1
    else if ls[0].id == id then 0
    else
      var r := FindIndexById(ls[1..], id);
      if r == -1 then -1 else r + 1
  }

  /** `ls.some(e => e.id === id)`. */
  function SomeWithId(ls: seq<Experiment>, id: int): (r: bool)
    ensures r <==> exists j :: 0 <= j < |ls| && ls[j].id == id
  {
    if ls == [] then false
    else if ls[0].id == id then (assert ls[0].id == id; true)
    else
      var r := SomeWithId(ls[1..], id);
      assert forall j :: 1 <= j < |ls| ==> ls[j] == ls[1..][j - 1];
      r
  }

  /** `ls.find(e => e.id === id)`. */
  function FindById(ls: seq<Experiment>, id: int): (r: Option<Experiment>)
    ensures r.Some? <==> SomeWithId(ls, id)
    ensures r.Some? ==> r.value.id == id && r.value == ls[FindIndexById(ls, id)]
  {
    var i := FindIndexById(ls, id);
    if i == -1 then None else Some(ls[i])
  }

  /** No id is held by two experiments of `ls`. */
  ghost predicate UniqueIds(ls: seq<Experiment>) {
    forall i, j :: 0 <= i < j < |ls| ==> ls[i].id != ls[j].id
  }

  /** The first occurrence of each id is the one FindIndexById reports. */
  lemma UniqueIdsFindIndex(ls: seq<Experiment>, i: int)
    requires UniqueIds(ls) && 0 <= i < |ls|
    ensures FindIndexById(ls, ls[i].id) == i
  {
  }
}
