// The connected clients of src/server/broadcast_manager.cpp as values: the list in
// order of arrival and the index from user name to session.

module ClientTables {
  import opened ByteStrings

  datatype Clients<S> = Clients(list: seq<S>, index: map<Bytes, S>)

  function Without<S(==)>(list: seq<S>, s: S): seq<S> {
    if list == [] then []
    else if list[|list| - 1] == s then Without(list[..|list| - 1], s)
    else Without(list[..|list| - 1], s) + [list[|list| - 1]]
  }

  function Add<S>(t: Clients<S>, s: S, name: Bytes): Clients<S> {
    Clients(t.list + [s], t.index[name := s])
  }

  /** The index entry goes only if it still points to this session. */
  function Remove<S(==)>(t: Clients<S>, s: S, name: Bytes): Clients<S> {
    Clients(Without(t.list, s), if name in t.index && t.index[name] == s then t.index - {name} else t.index)
  }

  function Cleared<S>(): Clients<S> {
    Clients([], map[])
  }

  /**
   * How index and list belong together. `latest` is the history: for each name the session
   * added last under it, removed since or not.
   */
  ghost predicate Indexed<S(!new)>(t: Clients<S>, latest: map<Bytes, S>, names: map<S, Bytes>) {
    && NoDup(t.list)
    && (forall s :: s in t.list ==> s in names && names[s] in latest)
    && (forall u :: u in latest ==> latest[u] in names && names[latest[u]] == u)
    && (forall u :: u in t.index <==> u in latest && latest[u] in t.list)
    && (forall u :: u in t.index ==> t.index[u] == latest[u])
    && (forall i, j :: 0 <= i < j < |t.list| && names[t.list[i]] == names[t.list[j]] ==>
          t.list[i] != latest[names[t.list[i]]])
  }

  lemma ClearedIsIndexed<S(!new)>(latest: map<Bytes, S>, names: map<S, Bytes>)
    requires forall u :: u in latest ==> latest[u] in names && names[latest[u]] == u
    ensures Indexed(Cleared(), latest, names)
  {
  }

  /** Adding a session that has its name and was never added before. */
  lemma AddKeepsIndexed<S(!new)>(t: Clients<S>, latest: map<Bytes, S>, names: map<S, Bytes>, s: S)
    requires Indexed(t, latest, names) && s in names && s !in t.list
    requires forall u :: u in latest ==> latest[u] != s
    ensures Indexed(Add(t, s, names[s]), latest[names[s] := s], names)
  {
  }

  lemma {:induction false} WithoutElements<S>(list: seq<S>, s: S)
    requires NoDup(list)
    ensures NoDup(Without(list, s))
    ensures forall x :: x in Without(list, s) <==> x in list && x != s
  {
    if list != [] {
      var init, last := list[..|list| - 1], list[|list| - 1];
      WithoutElements(init, s);
      assert list == init + [last];
      assert last !in init && last !in Without(init, s);
    }
  }

  lemma {:induction false} WithoutIndex<S>(list: seq<S>, s: S, i: nat) returns (i': nat)
    requires i < |Without(list, s)|
    ensures i' < |list| && list[i'] == Without(list, s)[i]
  {
    var n := |list| - 1;
    if i < |Without(list[..n], s)| {
      i' := WithoutIndex(list[..n], s, i);
    } else {
      i' := n;
    }
  }

  /** What is left of the list is in the order it had. */
  lemma {:induction false} WithoutOrder<S>(list: seq<S>, s: S, i: nat, j: nat)
    returns (i': nat, j': nat)
    requires NoDup(list) && i < j < |Without(list, s)|
    ensures i' < j' < |list|
    ensures list[i'] == Without(list, s)[i] && list[j'] == Without(list, s)[j]
  {
    var n := |list| - 1;
    var init := Without(list[..n], s);
    if j < |init| {
      i', j' := WithoutOrder(list[..n], s, i, j);
    } else {
      i' := WithoutIndex(list[..n], s, i);
      j' := n;
    }
  }

  lemma RemoveKeepsIndexed<S(!new)>(t: Clients<S>, latest: map<Bytes, S>, names: map<S, Bytes>, s: S, name: Bytes)
    requires Indexed(t, latest, names)
    requires s in names ==> name == names[s]
    ensures Indexed(Remove(t, s, name), latest, names)
  {
    var t' := Remove(t, s, name);
    WithoutElements(t.list, s);
    forall i, j | 0 <= i < j < |t'.list| && names[t'.list[i]] == names[t'.list[j]]
      ensures t'.list[i] != latest[names[t'.list[i]]]
    {
      var i', j' := WithoutOrder(t.list, s, i, j);
    }
  }

  /** New names for sessions that had none change nothing. */
  lemma NamingKeepsIndexed<S(!new)>(t: Clients<S>, latest: map<Bytes, S>, names: map<S, Bytes>, s: S, name: Bytes)
    requires Indexed(t, latest, names) && s !in names
    ensures Indexed(t, latest, names[s := name])
  {
  }

  // What the relation says to a caller.

  /** An entry is the last connected session of its name. */
  lemma IndexedIsLast<S(!new)>(t: Clients<S>, latest: map<Bytes, S>, names: map<S, Bytes>, u: Bytes)
    requires Indexed(t, latest, names) && u in t.index
    ensures exists k :: 0 <= k < |t.list| && t.list[k] == t.index[u] && names[t.list[k]] == u
              && forall j :: k < j < |t.list| ==> names[t.list[j]] != u
  {
    var k :| 0 <= k < |t.list| && t.list[k] == latest[u];
  }

  /** The index is exactly the index of the list: u leads to s iff s is connected under u. */
  ghost predicate Complete<S(!new)>(t: Clients<S>, names: map<S, Bytes>) {
    && (forall s :: s in t.list ==> s in names && names[s] in t.index && t.index[names[s]] == s)
    && (forall u :: u in t.index ==> t.index[u] in t.list && t.index[u] in names && names[t.index[u]] == u)
  }

  lemma ClearedIsComplete<S(!new)>(names: map<S, Bytes>)
    ensures Complete(Cleared(), names)
  {
  }

  /** add_client keeps the index complete exactly when nobody is indexed under the name yet. */
  lemma AddIsCompleteIff<S(!new)>(t: Clients<S>, names: map<S, Bytes>, s: S)
    requires Complete(t, names) && s in names && s !in t.list
    ensures Complete(Add(t, s, names[s]), names) <==> names[s] !in t.index
    ensures names[s] !in t.index <==> forall x :: x in t.list ==> names[x] != names[s]
  {
    var t' := Add(t, s, names[s]);
    if names[s] in t.index {
      var x := t.index[names[s]];
      assert x in t'.list && t'.index[names[x]] != x;
    } else {
      assert forall x :: x in t'.list <==> x in t.list || x == s;
    }
  }

  /** remove_client always does. */
  lemma RemoveKeepsComplete<S(!new)>(t: Clients<S>, names: map<S, Bytes>, s: S, name: Bytes)
    requires Complete(t, names) && NoDup(t.list)
    requires s in names ==> name == names[s]
    ensures Complete(Remove(t, s, name), names)
  {
    WithoutElements(t.list, s);
  }

  /** Distinct connected names do not suffice: an older login stays unindexed after the newer one left. */
  lemma OlderLoginLosesItsEntry<S(!new)>(older: S, newer: S, u: Bytes)
    requires older != newer
    ensures var t := Remove(Add(Add(Cleared(), older, u), newer, u), newer, u);
            t.list == [older] && u !in t.index
  {
    var list := [older, newer];
    var t := Add(Add(Cleared(), older, u), newer, u);
    assert t.list == list && t.index == map[u := newer];
    assert list[..1] == [older];
    WithoutOther(older, newer);
  }

  lemma WithoutOther<S>(x: S, s: S)
    requires x != s
    ensures Without([x], s) == [x]
  {
    assert [x][..0] == [];
    assert Without([x][..0], s) == [];
  }

  lemma {:induction false} WithoutAbsent<S>(list: seq<S>, s: S)
    requires s !in list
    ensures Without(list, s) == list
  {
    if list != [] {
      WithoutAbsent(list[..|list| - 1], s);
    }
  }

  /** A session that comes and goes leaves no trace, except that its name is no longer indexed. */
  lemma AddThenRemove<S>(t: Clients<S>, s: S, name: Bytes)
    requires s !in t.list
    ensures Remove(Add(t, s, name), s, name) == Clients(t.list, t.index - {name})
  {
    WithoutAbsent(t.list, s);
    assert (t.list + [s])[..|t.list|] == t.list;
    assert t.index[name := s] - {name} == t.index - {name};
  }

  lemma RemoveStranger<S>(t: Clients<S>, s: S, name: Bytes)
    requires s !in t.list && (name in t.index ==> t.index[name] != s)
    ensures Remove(t, s, name) == t
  {
    WithoutAbsent(t.list, s);
  }
}
