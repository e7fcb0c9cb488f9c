/** Tasks and the list surgery the component performs on `tasks`:
    `Array.prototype.filter`, `find` and the replace-by-id `map`. */
module TaskSeq {
  import opened Outcomes

  /** A task identifier as the store hands it out: a number or a string,
      compared with `===` (so the number 1 and the string "1" differ). */
  datatype Id = Num(n: int) | Str(s: string)

  /** One record of the task store. */
  datatype Task = Task(id: Id, text: string, completed: bool)

  /** `a` is `b` with some entries dropped and the rest kept in order. */
  ghost predicate IsSubsequence(a: seq<Task>, b: seq<Task>)
    decreases |b|
  {
    if a == [] then true
    else if b == [] then false
    else (a[0] == b[0] && IsSubsequence(a[1..], b[1..])) || IsSubsequence(a, b[1..])
  }

  /** No two entries share an identifier: the store's key constraint. */
  ghost predicate UniqueIds(s: seq<Task>) {
    forall i, j :: 0 <= i < j < |s| ==> s[i].id != s[j].id
  }

  /** Some entry carries identifier `id`. */
  ghost predicate HasId(s: seq<Task>, id: Id) {
    exists i :: 0 <= i < |s| && s[i].id == id
  }

  /** `s.filter(keep)`: the entries `keep` accepts, in their original
      order; `FilterSpec` states what that means. */
  function Filter(s: seq<Task>, keep: Task -> bool): seq<Task> {
    if s == [] then []
    else if keep(s[0]) then [s[0]] + Filter(s[1..], keep)
    else Filter(s[1..], keep)
  }

  /** A filter keeps exactly the entries the predicate accepts, each with
      its multiplicity, in their original relative order. */
  lemma {:induction false} FilterSpec(s: seq<Task>, keep: Task -> bool)
    ensures IsSubsequence(Filter(s, keep), s)
    ensures forall t: Task :: multiset(Filter(s, keep))[t] == if keep(t) then multiset(s)[t] else 0
    ensures forall i :: 0 <= i < |Filter(s, keep)| ==> keep(Filter(s, keep)[i])
  {
    if s != [] {
      var rest := Filter(s[1..], keep);
      FilterSpec(s[1..], keep);
      assert multiset(s) == multiset{s[0]} + multiset(s[1..]) by {
        assert s == [s[0]] + s[1..];
      }
      if keep(s[0]) {
        var r := [s[0]] + rest;
        assert Filter(s, keep) == r;
        assert r[0] == s[0] && r[1..] == rest;
        assert multiset(r) == multiset{s[0]} + multiset(rest);
      } else {
        assert Filter(s, keep) == rest;
      }
    }
  }

  /** `s.find(task => task.id === id)`: the first entry with that id, or
      nothing when no entry has it. */
  function Find(s: seq<Task>, id: Id): (r: Option<Task>)
    ensures r.None? <==> !HasId(s, id)
    ensures r.Some? ==> exists i :: 0 <= i < |s| && s[i] == r.value && r.value.id == id
                                    && forall j :: 0 <= j < i ==> s[j].id != id
  {
    if s == [] then None
    else if s[0].id == id then Some(s[0])
    else
      var r := Find(s[1..], id);
      assert HasId(s[1..], id) ==> HasId(s, id) by {
        if HasId(s[1..], id) {
          var k :| 0 <= k < |s[1..]| && s[1..][k].id == id;
          assert s[k + 1].id == id;
        }
      }
      assert r.Some? ==> exists i :: 0 <= i < |s| && s[i] == r.value && r.value.id == id
                                     && forall j :: 0 <= j < i ==> s[j].id != id by {
        if r.Some? {
          var k :| 0 <= k < |s[1..]| && s[1..][k] == r.value && r.value.id == id
                   && forall j :: 0 <= j < k ==> s[1..][j].id != id;
          assert s[k + 1] == r.value;
          assert forall j :: 0 <= j < k + 1 ==> s[j].id != id by {
            forall j | 0 <= j < k + 1 ensures s[j].id != id {
              if j > 0 { assert s[j] == s[1..][j - 1]; }
            }
          }
        }
      }
      r
  }

  /** `s.filter(task => task.id !== id)`: what removing a task leaves. */
  function RemoveById(s: seq<Task>, id: Id): (r: seq<Task>)
    ensures IsSubsequence(r, s)
    ensures !HasId(r, id)
    ensures forall t: Task :: t.id != id ==> multiset(r)[t] == multiset(s)[t]
  {
    FilterSpec(s, NotId(id));
    Filter(s, NotId(id))
  }

  /** The predicate `task => task.id !== id`. */
  function NotId(id: Id): Task -> bool {
    (t: Task) => t.id != id
  }

  /** `s.map(task => task.id === id ? t : task)`: every entry with that id
      becomes `t`, every other entry stays where and what it was. */
  function ReplaceById(s: seq<Task>, id: Id, t: Task): (r: seq<Task>)
    ensures |r| == |s|
    ensures forall i :: 0 <= i < |s| && s[i].id != id ==> r[i] == s[i]
    ensures forall i :: 0 <= i < |s| && s[i].id == id ==> r[i] == t
  {
    if s == [] then []
    else [if s[0].id == id then t else s[0]] + ReplaceById(s[1..], id, t)
  }

  /** A filter that accepts everything returns the list it was given. */
  lemma {:induction false} FilterKeepAll(s: seq<Task>, keep: Task -> bool)
    requires forall i :: 0 <= i < |s| ==> keep(s[i])
    ensures Filter(s, keep) == s
  {
    if s != [] {
      assert keep(s[0]);
      FilterKeepAll(s[1..], keep);
    }
  }

  /** Whether a non-empty list has an id, read off its head and tail. */
  lemma HasIdCons(s: seq<Task>, id: Id)
    requires s != []
    ensures HasId(s, id) <==> s[0].id == id || HasId(s[1..], id)
  {

  }

  /** The tail of a duplicate-free list is duplicate-free and does not
      repeat the head's id. */
  lemma UniqueTail(s: seq<Task>)
    requires s != [] && UniqueIds(s)
    ensures UniqueIds(s[1..]) && !HasId(s[1..], s[0].id)
  {

  }

  /** Every entry a filter keeps comes from the filtered list. */
  lemma {:induction false} FilterFrom(s: seq<Task>, keep: Task -> bool)
    ensures forall x :: x in Filter(s, keep) ==> x in s
  {
    if s != [] {
      FilterFrom(s[1..], keep);
      assert forall x :: x in s[1..] ==> x in s;
    }
  }

  /** A filter of a list without duplicate ids has none either. */
  lemma {:induction false} FilterUnique(s: seq<Task>, keep: Task -> bool)
    requires UniqueIds(s)
    ensures UniqueIds(Filter(s, keep))
  {
    if s != [] {
      UniqueTail(s);
      FilterUnique(s[1..], keep);
      var rest := Filter(s[1..], keep);
      if keep(s[0]) {
        FilterFrom(s[1..], keep);
        var r := [s[0]] + rest;
        assert Filter(s, keep) == r;
        forall i, j | 0 <= i < j < |r| ensures r[i].id != r[j].id {
          if i == 0 {
            assert r[j] == rest[j - 1] && r[j] in s[1..];
          } else {
            assert r[i] == rest[i - 1] && r[j] == rest[j - 1];
          }
        }
      }
    }
  }

  /** On a list without duplicate ids, removing an id drops exactly one
      entry when the id is present and none otherwise. */
  lemma {:induction false} RemoveByIdLength(s: seq<Task>, id: Id)
    requires UniqueIds(s)
    ensures |Filter(s, NotId(id))| == if HasId(s, id) then |s| - 1 else |s|
  {
    if s != [] {
      UniqueTail(s);
      HasIdCons(s, id);
      RemoveByIdLength(s[1..], id);
      if s[0].id == id {
        FilterKeepAll(s[1..], NotId(id));
      }
    }
  }

  /** Removing an id from a list without duplicate ids keeps it free of
      duplicates and drops exactly one entry when the id is present. */
  lemma RemoveByIdUnique(s: seq<Task>, id: Id)
    requires UniqueIds(s)
    ensures UniqueIds(RemoveById(s, id))
    ensures |RemoveById(s, id)| == if HasId(s, id) then |s| - 1 else |s|
  {
    FilterUnique(s, NotId(id));
    RemoveByIdLength(s, id);
  }

  /** Replacing the entries of an id by a task carrying that same id
      changes no identifier, so it keeps the list free of duplicates. */
  lemma ReplaceByIdUnique(s: seq<Task>, id: Id, t: Task)
    requires UniqueIds(s) && t.id == id
    ensures UniqueIds(ReplaceById(s, id, t))
  {

  }

  /** Replace-by-id touches only the matching id: once that id is removed,
      the list with and without the replacement are the same. */
  lemma {:induction false} RemoveAfterReplace(s: seq<Task>, id: Id, t: Task)
    requires t.id == id
    ensures RemoveById(ReplaceById(s, id, t), id) == RemoveById(s, id)
  {
    if s != [] {
      RemoveAfterReplace(s[1..], id, t);
      var r := ReplaceById(s, id, t);
      assert r[1..] == ReplaceById(s[1..], id, t);
    }
  }

  /** Replacing an id no entry carries leaves the list as it was. */
  lemma ReplaceAbsentId(s: seq<Task>, id: Id, t: Task)
    requires !HasId(s, id)
    ensures ReplaceById(s, id, t) == s
  {

  }

  /** Filtering a concatenation filters each part. */
  lemma {:induction false} FilterConcat(a: seq<Task>, b: seq<Task>, keep: Task -> bool)
    ensures Filter(a + b, keep) == Filter(a, keep) + Filter(b, keep)
  {
    if a == [] {
      assert a + b == b;
    } else {
      assert (a + b)[0] == a[0] && (a + b)[1..] == a[1..] + b;
      FilterConcat(a[1..], b, keep);
      if !keep(a[0]) {
        assert Filter(a + b, keep) == Filter(a[1..] + b, keep);
      } else {
        calc {
          Filter(a + b, keep);
          [a[0]] + Filter(a[1..] + b, keep);
          [a[0]] + (Filter(a[1..], keep) + Filter(b, keep));
          ([a[0]] + Filter(a[1..], keep)) + Filter(b, keep);
        }
      }
    }
  }

  /** Removing the id of an appended task whose id was new gives back the
      list before the append. */
  lemma RemoveAppended(s: seq<Task>, t: Task)
    requires !HasId(s, t.id)
    ensures RemoveById(s + [t], t.id) == s
  {
    var keep := NotId(t.id);
    FilterConcat(s, [t], keep);
    FilterKeepAll(s, keep);
    assert Filter([t], keep) == [];
  }
}
