/** `Blackboard` (pychology/blackboard.py): a key/value store whose reads
    fall through to a parent blackboard, and whose writes to a key only the
    parent chain holds go to the parent. */
module Blackboards {
  import opened Common

  class Blackboard<K(==), V> {
    /** The entries held locally. */
    var values: map<K, V>
    /** The blackboard reads fall through to, if any. */
    const parent: Blackboard?<K, V>
    /** This blackboard and every blackboard up the parent chain. */
    ghost const Repr: set<object>

    /** The parent chain is finite and acyclic. */
    ghost predicate Valid()
      decreases Repr
    {
      this in Repr &&
      (parent != null ==> parent in Repr && parent.Repr < Repr && this !in parent.Repr && parent.Valid())
    }

    /** What a reader sees: the parent's view with the local entries on
        top. */
    ghost function View(): map<K, V>
      requires Valid()
      reads Repr
      decreases Repr
    {
      (if parent == null then map[] else parent.View()) + values
    }

    /** `Blackboard(parent)`: an empty local map. */
    constructor(parent: Blackboard?<K, V>)
      requires parent != null ==> parent.Valid()
      ensures Valid() && values == map[] && this.parent == parent
      ensures Repr == {this} + (if parent == null then {} else parent.Repr)
      ensures View() == (if parent == null then map[] else parent.View())
    {
      this.parent := parent;
      this.values := map[];
      this.Repr := {this} + (if parent == null then {} else parent.Repr);
    }

    /** A blackboard without a parent sees exactly its own entries. */
    lemma RootView()
      requires Valid() && parent == null
      ensures View() == values
    {
    }

    /** `key in bb`: held locally or anywhere up the parent chain. */
    predicate Contains(key: K)
      requires Valid()
      reads Repr
      ensures Contains(key) <==> key in View()
      decreases Repr
    {
      key in values || (parent != null && parent.Contains(key))
    }

    /** `bb[key]`: the local value, shadowing the parent's, else the parent
        chain's, else KeyError. */
    function Get(key: K): (r: Result<V, Exc>)
      requires Valid()
      reads Repr
      ensures r.Ok? <==> key in View()
      ensures r.Ok? ==> r.value == View()[key]
      ensures r.Err? ==> r.error == KeyError
      ensures key in values ==> r == Ok(values[key])
      ensures key !in values && parent != null ==> r == parent.Get(key)
      decreases Repr
    {
      if key in values then Ok(values[key])
      else if parent != null && parent.Contains(key) then parent.Get(key)
      else Err(KeyError)
    }

    /** `bb[key] = value`: overwrite a local entry, else write through to
        the parent chain when it holds the key, else add a local entry.
        Every reader of this blackboard then sees the new value. */
    method Set(key: K, value: V)
      requires Valid()
      modifies Repr
      ensures Valid()
      ensures View() == old(View())[key := value]
      ensures key in old(values) ==> values == old(values)[key := value] && (parent != null ==> parent.View() == old(parent.View()))
      ensures key !in old(values) && parent != null && key in old(parent.View()) ==>
                values == old(values) && parent.View() == old(parent.View())[key := value]
      ensures key !in old(View()) ==> values == old(values)[key := value] && (parent != null ==> parent.View() == old(parent.View()))
      decreases Repr
    {
      if key in values {
        values := values[key := value];
        assert parent != null ==> this !in parent.Repr;
      } else if parent != null && parent.Contains(key) {
        parent.Set(key, value);
      } else {
        values := values[key := value];
      }
    }

    /** `del bb[key]`: removes a local entry only; a key held only up the
        parent chain, or nowhere, raises KeyError. */
    method Delete(key: K) returns (r: Result<(), Exc>)
      requires Valid()
      modifies this
      ensures Valid()
      ensures r.Ok? <==> key in old(values)
      ensures r.Err? ==> r.error == KeyError && values == old(values)
      ensures values == old(values) - {key}
      ensures parent != null ==> parent.View() == old(parent.View())
    {
      if key in values {
        values := values - {key};
        r := Ok(());
      } else {
        r := Err(KeyError);
      }
    }
  }

  /** Set-then-get reads back the stored value; after a local delete the
      key is gone unless the parent chain holds it. */
  method SetGetDelete<K(==), V>(bb: Blackboard<K, V>, key: K, value: V) returns (got: Result<V, Exc>, present: bool)
    requires bb.Valid()
    modifies bb.Repr
    ensures got == Ok(value)
    ensures bb.parent == null || !bb.parent.Contains(key) ==> !present
  {
    bb.Set(key, value);
    got := bb.Get(key);
    var _ := bb.Delete(key);
    present := bb.Contains(key);
  }
}
