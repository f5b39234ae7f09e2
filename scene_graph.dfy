/**
 * The growable array of model pointers in Src/SceneGraph.cpp: a heap array
 * `objects` holding `count` pointers in a buffer of `capacity` slots. The
 * buffer starts at one slot and doubles whenever an add finds it full;
 * removal shifts the tail left by one.
 */
module SceneGraph {

  /** A stored `Model*`: the pointer's own identity and the id of the model it points to. */
  datatype ModelPtr = ModelPtr(address: nat, id: int)

  /**
   * The position indexOf reports: the first element carrying `id`, or -1.
   */
  function IndexOfId(s: seq<ModelPtr>, id: int): (r: int)
    ensures -1 <= r < |s|
    ensures r == -1 <==> forall k :: 0 <= k < |s| ==> s[k].id != id
    ensures r != -1 ==> s[r].id == id && forall k :: 0 <= k < r ==> s[k].id != id
  {
    if |s| == 0 then -1
    else if s[0].id == id then 0
    else
      var r := IndexOfId(s[1..], id);
      if r == -1 then -1 else r + 1
  }

  /** The capacity resize() moves to: one slot for an empty array, otherwise twice the old capacity. */
  function NextCapacity(count: int, capacity: int): int
  {
    if count == 0 then 1 else capacity * 2
  }

  class SceneGraph {
    var objects: array<ModelPtr>
    var count: int
    var capacity: int

    ghost predicate Valid()
      reads this
    {
      0 <= count <= capacity && capacity == objects.Length
    }

    /** The stored pointers, in order. */
    ghost function Contents(): seq<ModelPtr>
      reads this, objects
      requires Valid()
    {
      objects[..count]
    }

    /**
     * An empty array with one slot. The count and capacity are set to zero
     * before the first resize (see the constructor finding in the README).
     */
    constructor ()
      ensures Valid() && fresh(objects)
      ensures Contents() == [] && capacity == 1
    {
      count, capacity := 0, 0;
      objects := new ModelPtr[0];
      new;
      Resize();
    }

    method Count() returns (n: int)
      requires Valid()
      ensures n == |Contents()|
    {
      n := count;
    }

    /** Appends `node`, growing the buffer first when it is full. */
    method Add(node: ModelPtr)
      requires Valid()
      modifies this, objects
      ensures Valid()
      ensures Contents() == old(Contents()) + [node]
      ensures capacity == if old(count) == old(capacity) then NextCapacity(old(count), old(capacity)) else old(capacity)
    {
      if count == capacity {
        Resize();
      }
      objects[count] := node;
      count := count + 1;
    }

    /** The first index whose element has `node`'s id, or -1. */
    method IndexOf(node: ModelPtr) returns (r: int)
      requires Valid()
      ensures r == IndexOfId(Contents(), node.id)
    {
      var i := 0;
      while i < count
        invariant 0 <= i <= count
        invariant forall k :: 0 <= k < i ==> objects[k].id != node.id
      {
        if objects[i].id == node.id {
          ghost var r' := IndexOfId(Contents(), node.id);
          assert r' != -1 && r' <= i by {
            assert Contents()[i].id == node.id;
          }
          return i;
        }
        i := i + 1;
      }
      return -1;
    }

    /** Removes the element at `i`, shifting every later element one place left. */
    method Remove(i: int)
      requires Valid() && 0 <= i < count
      modifies this, objects
      ensures Valid() && objects == old(objects) && capacity == old(capacity)
      ensures Contents() == old(Contents())[..i] + old(Contents())[i + 1..]
    {
      count := count - 1;
      var j := i;
      while j < count
        invariant i <= j <= count == old(count) - 1
        invariant objects == old(objects) && capacity == old(capacity)
        invariant forall k :: 0 <= k < i ==> objects[k] == old(objects[k])
        invariant forall k :: i <= k < j ==> objects[k] == old(objects[k + 1])
        invariant forall k :: j <= k < objects.Length ==> objects[k] == old(objects[k])
      {
        objects[j] := objects[j + 1];
        j := j + 1;
      }
      assert forall k :: 0 <= k < count ==> Contents()[k] == (old(Contents())[..i] + old(Contents())[i + 1..])[k];
    }

    /** Moves the elements into a fresh buffer of NextCapacity slots, keeping their order. */
    method Resize()
      requires Valid()
      modifies this
      ensures Valid() && fresh(objects)
      ensures count == old(count) && capacity == NextCapacity(old(count), old(capacity))
      ensures Contents() == old(Contents())
    {
      var nextCapacity;
      if count == 0 {
        nextCapacity := 1;
      } else {
        nextCapacity := capacity * 2;
      }
      var nextObjects := new ModelPtr[nextCapacity];
      var i := 0;
      while i < count
        invariant 0 <= i <= count <= nextCapacity == nextObjects.Length
        invariant count == old(count) && capacity == old(capacity) && objects == old(objects)
        invariant Valid() && objects[..] == old(objects[..])
        invariant forall k :: 0 <= k < i ==> nextObjects[k] == objects[k]
      {
        nextObjects[i] := objects[i];
        i := i + 1;
      }
      objects := nextObjects;
      capacity := nextCapacity;
    }

    /** The element at `i`; the source does no bounds check, so `i` must be in range. */
    method At(i: int) returns (m: ModelPtr)
      requires Valid() && 0 <= i < count
      ensures m == Contents()[i]
    {
      m := objects[i];
    }
  }

  /**
   * Adding a model whose id is not yet stored and then removing it at the
   * index indexOf reports gives back the original contents, in order.
   */
  lemma AddThenRemoveRestores(s: seq<ModelPtr>, node: ModelPtr)
    requires IndexOfId(s, node.id) == -1
    ensures IndexOfId(s + [node], node.id) == |s|
    ensures (s + [node])[..|s|] + (s + [node])[|s| + 1..] == s
  {
    var t := s + [node];
    assert t[|s|].id == node.id;
    assert forall k :: 0 <= k < |s| ==> t[k].id != node.id by {
      forall k | 0 <= k < |s| ensures t[k].id != node.id {
        assert t[k] == s[k];
      }
    }
  }

  /**
   * The constructor as written: resize() runs on whatever `_count` and
   * `_capacity` held, since neither is initialised. Returns the count and
   * capacity it leaves behind.
   */
  function ConstructedAsWritten(garbageCount: int, garbageCapacity: int): (r: (int, int))
    ensures r.0 == garbageCount
  {
    (garbageCount, NextCapacity(garbageCount, garbageCapacity))
  }

  /**
   * With three leftover elements and one leftover slot, the constructor as
   * written leaves a count larger than the capacity: resize() copies three
   * elements into a two-slot buffer.
   */
  lemma ConstructedAsWrittenOverflows()
    ensures ConstructedAsWritten(3, 1).0 > ConstructedAsWritten(3, 1).1
  {
  }
}
