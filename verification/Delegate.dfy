/** The delegate of vee/delegate.h: a list of handlers plus a map from keys to handlers. */
module Delegates {

  /** A callable, as far as delegates compare them: its type and its target. */
  datatype Handler = Function(address: nat) | Functor(kind: nat, id: nat)

  datatype Keyed = Keyed(key: int, handler: Handler)

  /** The contents of a delegate; the keyed handlers are in the order of their keys. */
  datatype Handlers = Handlers(plain: seq<Handler>, keyed: seq<Keyed>)

  /** One call of one handler. */
  datatype Fired<A> = Fired(handler: Handler, args: A)

  const EMPTY := Handlers([], [])

  ghost predicate Ascending(keyed: seq<Keyed>) {
    forall i, j | 0 <= i < j < |keyed| :: keyed[i].key < keyed[j].key
  }

  /** The handlers a call reaches: the plain ones as they were added, then the keyed ones by key. */
  function HandlerOrder(h: Handlers): seq<Handler> {
    h.plain + seq(|h.keyed|, i requires 0 <= i < |h.keyed| => h.keyed[i].handler)
  }

  function Calls<A>(h: Handlers, args: A): (calls: seq<Fired<A>>)
    ensures PlainThenKeyed(calls, h, args)
  {
    var order := HandlerOrder(h);
    seq(|order|, i requires 0 <= i < |order| => Fired(order[i], args))
  }

  /** First every plain handler in the order of the list, then every keyed one in the order of the keys. */
  ghost predicate PlainThenKeyed<A>(calls: seq<Fired<A>>, h: Handlers, args: A) {
    && |calls| == |h.plain| + |h.keyed|
    && (forall i | 0 <= i < |h.plain| :: calls[i] == Fired(h.plain[i], args))
    && (forall j | 0 <= j < |h.keyed| :: calls[|h.plain| + j] == Fired(h.keyed[j].handler, args))
  }

  /** Assignment keeps either part that the right-hand side has empty. */
  function Merge(target: Handlers, source: Handlers): Handlers {
    Handlers(if source.plain != [] then source.plain else target.plain,
             if source.keyed != [] then source.keyed else target.keyed)
  }

  function RemoveFirst(handlers: seq<Handler>, h: Handler): seq<Handler> {
    if handlers == [] then []
    else if handlers[0] == h then handlers[1..]
    else [handlers[0]] + RemoveFirst(handlers[1..], h)
  }

  /** Inserting into the map: a key that is there already keeps its handler. */
  function Insert(keyed: seq<Keyed>, key: int, h: Handler): seq<Keyed> {
    if keyed == [] || key < keyed[0].key then [Keyed(key, h)] + keyed
    else if key == keyed[0].key then keyed
    else [keyed[0]] + Insert(keyed[1..], key, h)
  }

  ghost predicate HasKey(keyed: seq<Keyed>, key: int) {
    exists i :: 0 <= i < |keyed| && keyed[i].key == key
  }

  class Delegate {
    var plain: seq<Handler>
    var keyed: seq<Keyed>

    ghost predicate Valid()
      reads this
    {
      Ascending(keyed)
    }

    function Contents(): Handlers
      reads this
    {
      Handlers(plain, keyed)
    }

    constructor ()
      ensures Valid() && Contents() == EMPTY && plain == [] && keyed == []
    {
      plain, keyed := [], [];
    }

    /** Copying is assigning to an empty delegate. */
    constructor Copy(source: Handlers)
      requires Ascending(source.keyed)
      ensures Valid() && Contents() == source
    {
      plain, keyed := [], [];
      new;
      Assign(source);
    }

    method Assign(source: Handlers)
      requires Valid() && Ascending(source.keyed)
      modifies this
      ensures Valid() && Contents() == Merge(old(Contents()), source)
      ensures plain == if source.plain != [] then source.plain else old(plain)
      ensures keyed == if source.keyed != [] then source.keyed else old(keyed)
    {
      if |source.plain| > 0 {
        plain := source.plain;
      }
      if |source.keyed| > 0 {
        keyed := source.keyed;
      }
    }

    /** Calls every handler with the arguments, and lists the calls. */
    method Fire<A>(args: A) returns (calls: seq<Fired<A>>)
      ensures calls == Calls(Contents(), args)
      ensures |calls| == |plain| + |keyed|
      ensures forall i | 0 <= i < |plain| :: calls[i] == Fired(plain[i], args)
      ensures forall j | 0 <= j < |keyed| :: calls[|plain| + j] == Fired(keyed[j].handler, args)
    {
      calls := [];
      for i := 0 to |plain|
        invariant calls == Calls(Handlers(plain[..i], []), args)
      {
        calls := calls + [Fired(plain[i], args)];
      }
      assert plain[..|plain|] == plain;
      for i := 0 to |keyed|
        invariant calls == Calls(Handlers(plain, keyed[..i]), args)
      {
        calls := calls + [Fired(keyed[i].handler, args)];
      }
      assert keyed[..|keyed|] == keyed;
    }

    method AddPlain(h: Handler)
      modifies this`plain
      ensures Contents() == Handlers(old(plain) + [h], keyed)
    {
      plain := plain + [h];
    }

    method AddKeyed(key: int, h: Handler)
      requires Valid()
      modifies this`keyed
      ensures Valid() && keyed == Insert(old(keyed), key, h)
      ensures forall e :: e in keyed <==> e in old(keyed) || (e == Keyed(key, h) && !HasKey(old(keyed), key))
    {
      InsertIsMapInsert(keyed, key, h);
      keyed := Insert(keyed, key, h);
    }

    /** Removes the first handler that has the same type and target. */
    method RemovePlain(h: Handler) returns (removed: bool)
      modifies this`plain
      ensures removed <==> h in old(plain)
      ensures plain == RemoveFirst(old(plain), h)
      ensures WithoutFirst(old(plain), plain, h)
    {
      var i := 0;
      while i < |plain|
        invariant 0 <= i <= |plain| && h !in plain[..i]
        invariant plain == old(plain)
      {
        if plain[i] == h {
          RemoveFirstAt(plain, i, h);
          plain := plain[..i] + plain[i + 1..];
          return true;
        }
        i := i + 1;
      }
      assert plain[..|plain|] == plain;
      RemoveFirstNone(plain, h);
      return false;
    }

    /** The overload for a wrapped function compares plain functions only: nothing else is ever found. */
    method RemoveWrapped(h: Handler) returns (removed: bool)
      modifies this`plain
      ensures removed <==> h.Function? && h in old(plain)
      ensures if h.Function? then WithoutFirst(old(plain), plain, h) else plain == old(plain)
    {
      if h.Function? {
        removed := RemovePlain(h);
      } else {
        removed := false;
      }
    }

    method RemoveKey(key: int) returns (removed: bool)
      requires Valid()
      modifies this`keyed
      ensures Valid()
      ensures removed <==> HasKey(old(keyed), key)
      ensures !HasKey(keyed, key)
      ensures forall e :: e in keyed <==> e in old(keyed) && e.key != key
    {
      for i := 0 to |keyed|
        invariant keyed == old(keyed)
        invariant forall k | 0 <= k < i :: keyed[k].key != key
      {
        if keyed[i].key == key {
          keyed := keyed[..i] + keyed[i + 1..];
          return true;
        }
      }
      return false;
    }
  }

  /** The first occurrence is gone and the rest as before. */
  ghost predicate WithoutFirst(before: seq<Handler>, after: seq<Handler>, h: Handler) {
    if h in before then
      exists i :: 0 <= i < |before| && before[i] == h && h !in before[..i] && after == before[..i] + before[i + 1..]
    else after == before
  }

  lemma {:induction false} RemoveFirstAt(handlers: seq<Handler>, i: nat, h: Handler)
    requires i < |handlers| && handlers[i] == h && h !in handlers[..i]
    ensures RemoveFirst(handlers, h) == handlers[..i] + handlers[i + 1..]
  {
    if 0 < i {
      var rest := handlers[1..];
      assert handlers[..i] == [handlers[0]] + rest[..i - 1];
      RemoveFirstAt(rest, i - 1, h);
    }
  }

  lemma {:induction false} RemoveFirstNone(handlers: seq<Handler>, h: Handler)
    requires h !in handlers
    ensures RemoveFirst(handlers, h) == handlers
  {
    if handlers != [] {
      RemoveFirstNone(handlers[1..], h);
      assert [handlers[0]] + handlers[1..] == handlers;
    }
  }

  /** Insertion keeps the key order, and adds the pair exactly when the key was free. */
  lemma {:induction false} InsertIsMapInsert(keyed: seq<Keyed>, key: int, h: Handler)
    requires Ascending(keyed)
    ensures Ascending(Insert(keyed, key, h))
    ensures forall e :: e in Insert(keyed, key, h) <==> e in keyed || (e == Keyed(key, h) && !HasKey(keyed, key))
  {
    if keyed != [] && keyed[0].key < key {
      var rest := keyed[1..];
      InsertIsMapInsert(rest, key, h);
      HasKeyCons(keyed, key);
      assert forall e :: e in keyed <==> e == keyed[0] || e in rest;
      InsertCons(keyed[0], Insert(rest, key, h));
    } else if keyed != [] {
      assert forall e | e in keyed :: keyed[0].key <= e.key;
    }
  }

  lemma HasKeyCons(keyed: seq<Keyed>, key: int)
    requires keyed != []
    ensures HasKey(keyed, key) <==> keyed[0].key == key || HasKey(keyed[1..], key)
  {
    if i :| 0 < i < |keyed| && keyed[i].key == key {
      assert keyed[1..][i - 1].key == key;
    }
    if i :| 0 <= i < |keyed[1..]| && keyed[1..][i].key == key {
      assert keyed[i + 1].key == key;
    }
  }

  lemma InsertCons(first: Keyed, rest: seq<Keyed>)
    requires Ascending(rest) && forall e | e in rest :: first.key < e.key
    ensures Ascending([first] + rest)
    ensures forall e :: e in [first] + rest <==> e == first || e in rest
  {
    assert forall i | 0 <= i < |rest| :: rest[i] in rest;
  }

  /** Removing undoes adding exactly when, once the handler occurs, nothing else follows it. */
  lemma {:induction false} RemoveUndoesAdd(handlers: seq<Handler>, h: Handler)
    ensures RemoveFirst(handlers + [h], h) == handlers
       <==> forall i, k | 0 <= i < k < |handlers| && handlers[i] == h :: handlers[k] == h
  {
    if handlers != [] {
      var rest := handlers[1..];
      assert (handlers + [h])[1..] == rest + [h];
      if handlers[0] == h {
        ShiftIsConstant(handlers, h);
      } else {
        RemoveUndoesAdd(rest, h);
        assert RemoveFirst(handlers + [h], h) == [handlers[0]] + RemoveFirst(rest + [h], h);
        assert RemoveFirst(handlers + [h], h) == handlers <==> RemoveFirst(rest + [h], h) == rest by {
          assert ([handlers[0]] + RemoveFirst(rest + [h], h))[1..] == RemoveFirst(rest + [h], h);
          assert handlers == [handlers[0]] + rest;
        }
        assert forall i | 0 <= i < |rest| :: rest[i] == handlers[i + 1];
        assert forall i | 0 < i < |handlers| :: handlers[i] == rest[i - 1];
      }
    }
  }

  lemma {:induction false} ShiftIsConstant(handlers: seq<Handler>, h: Handler)
    requires handlers != [] && handlers[0] == h
    ensures handlers[1..] + [h] == handlers <==> forall k | 0 <= k < |handlers| :: handlers[k] == h
  {
    if handlers[1..] + [h] == handlers {
      forall k | 0 <= k < |handlers| ensures handlers[k] == h {
        ConstantUpTo(handlers, h, k);
      }
    }
  }

  lemma {:induction false} ConstantUpTo(handlers: seq<Handler>, h: Handler, k: nat)
    requires handlers != [] && handlers[0] == h && handlers[1..] + [h] == handlers && k < |handlers|
    ensures handlers[k] == h
  {
    if 0 < k {
      ConstantUpTo(handlers, h, k - 1);
      assert (handlers[1..] + [h])[k - 1] == handlers[k];
      assert (handlers[1..] + [h])[k - 1] == handlers[k - 1];
    }
  }

  // ---- Sequences of assignments ----

  function AssignAll(start: Handlers, sources: seq<Handlers>): Handlers {
    if sources == [] then start
    else Merge(AssignAll(start, sources[..|sources| - 1]), sources[|sources| - 1])
  }

  lemma AssignAppend(start: Handlers, sources: seq<Handlers>, last: Handlers)
    ensures AssignAll(start, sources + [last]) == Merge(AssignAll(start, sources), last)
  {
    assert (sources + [last])[..|sources|] == sources;
  }

  /** The last list that is not empty, if there is one. */
  ghost predicate IsLastNonempty<T>(lists: seq<seq<T>>, last: seq<T>) {
    if last == [] then forall i | 0 <= i < |lists| :: lists[i] == []
    else exists i :: 0 <= i < |lists| && lists[i] == last && forall k | i < k < |lists| :: lists[k] == []
  }

  function PlainLists(start: Handlers, sources: seq<Handlers>): (lists: seq<seq<Handler>>)
    ensures |lists| == |sources| + 1
  {
    [start.plain] + seq(|sources|, i requires 0 <= i < |sources| => sources[i].plain)
  }

  function KeyedLists(start: Handlers, sources: seq<Handlers>): (lists: seq<seq<Keyed>>)
    ensures |lists| == |sources| + 1
  {
    [start.keyed] + seq(|sources|, i requires 0 <= i < |sources| => sources[i].keyed)
  }

  /** After any sequence of assignments a delegate has the last nonempty list and the last nonempty map. */
  lemma {:induction false} AssignmentsLeaveLastNonempty(start: Handlers, sources: seq<Handlers>)
    ensures IsLastNonempty(PlainLists(start, sources), AssignAll(start, sources).plain)
    ensures IsLastNonempty(KeyedLists(start, sources), AssignAll(start, sources).keyed)
  {
    if sources == [] {
      assert PlainLists(start, sources) == [start.plain] && KeyedLists(start, sources) == [start.keyed];
      LastAppended([], start.plain, []);
      LastAppended([], start.keyed, []);
    } else {
      var n := |sources| - 1;
      AssignmentsLeaveLastNonempty(start, sources[..n]);
      assert PlainLists(start, sources) == PlainLists(start, sources[..n]) + [sources[n].plain];
      assert KeyedLists(start, sources) == KeyedLists(start, sources[..n]) + [sources[n].keyed];
      LastAppended(PlainLists(start, sources[..n]), sources[n].plain, AssignAll(start, sources[..n]).plain);
      LastAppended(KeyedLists(start, sources[..n]), sources[n].keyed, AssignAll(start, sources[..n]).keyed);
    }
  }

  lemma LastAppended<T>(lists: seq<seq<T>>, list: seq<T>, last: seq<T>)
    requires IsLastNonempty(lists, last)
    ensures IsLastNonempty(lists + [list], if list != [] then list else last)
  {
    var longer := lists + [list];
    if list != [] {
      assert longer[|lists|] == list;
    } else if last != [] {
      var i :| 0 <= i < |lists| && lists[i] == last && forall k | i < k < |lists| :: lists[k] == [];
      assert longer[i] == last;
    }
  }

  /** Assignment makes the target equal to the source exactly when the source has something to put
      in the place of each part that the target holds. */
  lemma AssignmentCopiesIff(target: Handlers, source: Handlers)
    ensures Merge(target, source) == source
       <==> (source.plain != [] || target.plain == []) && (source.keyed != [] || target.keyed == [])
  {
  }
}
