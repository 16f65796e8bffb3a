/** The task record the search engine orders (the fields the engine reads). */
module Tasks {

  datatype Category = Work | Personal | Errands | Health | Learning | Other

  datatype Priority = High | Medium | Low

  /** The ordinal the engine gives each priority: high 3, medium 2, low 1. */
  function Ordinal(p: Priority): nat
  {
    match p
    case High => 3
    case Medium => 2
    case Low => 1
  }

  /** A task; an absent dependency list is the empty sequence. */
  datatype Task = Task(id: string, duration: nat, category: Category, priority: Priority, deps: seq<string>)

  /** The identifiers of a sequence of tasks, in order. */
  function Ids(s: seq<Task>): (r: seq<string>)
    ensures |r| == |s|
    ensures forall i :: 0 <= i < |s| ==> r[i] == s[i].id
  {
    seq(|s|, i requires 0 <= i < |s| => s[i].id)
  }

  /** The set of identifiers occurring in a sequence of tasks. */
  function IdSet(s: seq<Task>): set<string>
  {
    set i | 0 <= i < |s| :: s[i].id
  }

  predicate DistinctIds(s: seq<Task>)
  {
    forall i, j :: 0 <= i < j < |s| ==> s[i].id != s[j].id
  }

  lemma IdSetSnoc(s: seq<Task>, t: Task)
    ensures IdSet(s + [t]) == IdSet(s) + {t.id}
  {
    var u := s + [t];
    forall x | x in IdSet(u) ensures x in IdSet(s) + {t.id} {
      var i :| 0 <= i < |u| && u[i].id == x;
      if i < |s| { assert s[i].id == x; }
    }
    forall x | x in IdSet(s) + {t.id} ensures x in IdSet(u) {
      if x == t.id {
        assert u[|s|].id == x;
      } else {
        var i :| 0 <= i < |s| && s[i].id == x;
        assert u[i].id == x;
      }
    }
  }

  lemma IdSetCons(t: Task, s: seq<Task>)
    ensures IdSet([t] + s) == {t.id} + IdSet(s)
  {
    var u := [t] + s;
    forall x | x in IdSet(u) ensures x in {t.id} + IdSet(s) {
      var i :| 0 <= i < |u| && u[i].id == x;
      if i > 0 { assert s[i - 1].id == x; }
    }
    forall x | x in {t.id} + IdSet(s) ensures x in IdSet(u) {
      if x == t.id {
        assert u[0].id == x;
      } else {
        var i :| 0 <= i < |s| && s[i].id == x;
        assert u[i + 1].id == x;
      }
    }
  }
}
