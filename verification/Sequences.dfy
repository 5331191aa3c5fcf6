/** Facts about taking prefixes and joining sequences, stated apart from what the elements are. */
module Sequences {

  lemma AppendAssoc<T>(a: seq<T>, b: seq<T>, c: seq<T>)
    ensures a + b + c == a + (b + c)
  {
  }

  lemma TakeAll<T>(s: seq<T>)
    ensures s[..|s|] == s
  {
  }

  lemma TakeNext<T>(s: seq<T>, i: nat)
    requires i < |s|
    ensures s[..i + 1] == s[..i] + [s[i]]
    ensures s[..i + 1][..i] == s[..i]
  {
  }

  function Flatten<T>(parts: seq<seq<T>>): seq<T> {
    if parts == [] then [] else Flatten(parts[..|parts| - 1]) + parts[|parts| - 1]
  }

  lemma {:induction false} FlattenNext<T>(parts: seq<seq<T>>, part: seq<T>)
    ensures Flatten(parts + [part]) == Flatten(parts) + part
  {
    assert (parts + [part])[..|parts|] == parts;
  }

  /** `picked` is what `s` holds at these increasing positions. */
  ghost predicate PickedAt<T>(s: seq<T>, picked: seq<T>, at: seq<nat>) {
    && |at| == |picked|
    && (forall k :: 0 <= k < |at| ==> at[k] < |s| && picked[k] == s[at[k]])
    && forall k, l :: 0 <= k < l < |at| ==> at[k] < at[l]
  }

  /** One more element, passed over or picked. */
  lemma PickSkips<T>(s: seq<T>, picked: seq<T>, at: seq<nat>)
    requires s != [] && PickedAt(s[..|s| - 1], picked, at)
    ensures PickedAt(s, picked, at) && |s| - 1 !in at
  {
    assert forall k :: 0 <= k < |at| ==> s[at[k]] == s[..|s| - 1][at[k]];
  }

  lemma PickTakes<T>(s: seq<T>, picked: seq<T>, at: seq<nat>)
    requires s != [] && PickedAt(s[..|s| - 1], picked, at)
    ensures PickedAt(s, picked + [s[|s| - 1]], at + [|s| - 1])
  {
    assert forall k :: 0 <= k < |at| ==> s[at[k]] == s[..|s| - 1][at[k]];
  }
}
