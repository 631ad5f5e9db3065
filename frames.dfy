/**
 * A scope chain seen as a sequence of frames, innermost first: each frame maps
 * names to values. These functions say what a lookup, a definition and an
 * assignment through the chain mean, independently of the objects that
 * hold the frames.
 */
module Frames {
  import opened Outcomes

  /** The index of the innermost frame holding `name`. */
  function Nearest<V>(frames: seq<map<string, V>>, name: string): (r: Option<nat>)
    ensures r.Some? ==> r.value < |frames| && name in frames[r.value]
    ensures r.Some? ==> forall j :: 0 <= j < r.value ==> name !in frames[j]
    ensures r.None? <==> forall j :: 0 <= j < |frames| ==> name !in frames[j]
  {
    if |frames| == 0 then None
    else if name in frames[0] then Some(0)
    else
      match Nearest(frames[1..], name)
      case None => None
      case Some(k) =>
        assert forall j :: 1 <= j <= k ==> frames[j] == frames[1..][j - 1];
        Some(k + 1)
  }

  /** The value bound to `name` by the innermost frame holding it. */
  function Lookup<V>(frames: seq<map<string, V>>, name: string): Option<V> {
    match Nearest(frames, name)
    case None => None
    case Some(k) => Some(frames[k][name])
  }

  /** Binding `name` in the innermost frame, inserting or overwriting. */
  function Bind<V>(frames: seq<map<string, V>>, name: string, value: V): seq<map<string, V>>
    requires |frames| > 0
  {
    frames[0 := frames[0][name := value]]
  }

  /** Overwriting the innermost existing binding of `name`; None when no frame holds it. */
  function Reassign<V>(frames: seq<map<string, V>>, name: string, value: V): Option<seq<map<string, V>>> {
    match Nearest(frames, name)
    case None => None
    case Some(k) => Some(frames[k := frames[k][name := value]])
  }

  /** Which frame a name is found in depends only on which frames hold it. */
  lemma NearestByMembership<V>(f: seq<map<string, V>>, g: seq<map<string, V>>, name: string)
    requires |f| == |g|
    requires forall i :: 0 <= i < |f| ==> (name in f[i] <==> name in g[i])
    ensures Nearest(f, name) == Nearest(g, name)
  {
  }

  /**
   * A definition is seen by a later lookup of the same name, shadows any
   * outer binding, and leaves every other name's lookup as it was.
   */
  lemma BindThenLookup<V>(frames: seq<map<string, V>>, name: string, value: V)
    requires |frames| > 0
    ensures Lookup(Bind(frames, name, value), name) == Some(value)
    ensures forall other :: other != name ==> Lookup(Bind(frames, name, value), other) == Lookup(frames, other)
  {
    var bound := Bind(frames, name, value);
    forall other | other != name
      ensures Lookup(bound, other) == Lookup(frames, other)
    {
      NearestByMembership(bound, frames, other);
    }
  }

  /**
   * An assignment succeeds exactly when some frame holds the name. It then
   * makes the next lookup return the new value, leaves every other name's
   * lookup alone, and never adds or removes a binding in any frame.
   */
  lemma ReassignThenLookup<V>(frames: seq<map<string, V>>, name: string, value: V)
    ensures Reassign(frames, name, value).None? <==> Lookup(frames, name).None?
    ensures Reassign(frames, name, value).Some? ==>
      var after := Reassign(frames, name, value).value;
      && |after| == |frames|
      && (forall i :: 0 <= i < |frames| ==> after[i].Keys == frames[i].Keys)
      && Lookup(after, name) == Some(value)
      && forall other :: other != name ==> Lookup(after, other) == Lookup(frames, other)
  {
    match Nearest(frames, name)
    case None =>
    case Some(k) =>
      var after := frames[k := frames[k][name := value]];
      NearestByMembership(after, frames, name);
      forall other | other != name
        ensures Lookup(after, other) == Lookup(frames, other)
      {
        NearestByMembership(after, frames, other);
      }
  }

  /** Assigning past an innermost frame that lacks the name is assigning in the frames behind it. */
  lemma ReassignOuter<V>(head: map<string, V>, rest: seq<map<string, V>>, name: string, value: V)
    requires name !in head
    ensures Reassign([head] + rest, name, value) ==
      match Reassign(rest, name, value)
      case None => None
      case Some(after) => Some([head] + after)
  {
    var frames := [head] + rest;
    assert frames[1..] == rest;
    match Nearest(rest, name)
    case None =>
    case Some(k) =>
      assert Nearest(frames, name) == Some(k + 1);
      assert frames[k + 1 := frames[k + 1][name := value]] == [head] + rest[k := rest[k][name := value]];
  }

  /** Assigning a name the innermost frame holds overwrites it there. */
  lemma ReassignInner<V>(head: map<string, V>, rest: seq<map<string, V>>, name: string, value: V)
    requires name in head
    ensures Reassign([head] + rest, name, value) == Some([head[name := value]] + rest)
  {
    assert ([head] + rest)[0 := head[name := value]] == [head[name := value]] + rest;
  }
}
