/** Pathways/Scene.cs: the object list and its conversion into the device
    buffer. The list holds references; a reference is modelled as a number
    and the objects it names as a map, so that two list entries can name
    the same object. */
module Scenes {
  import PathwayObjects

  type Ref = nat

  /** List.IndexOf with the default (reference) equality: the first
      position holding `x`, or -1. */
  function IndexOf(refs: seq<Ref>, x: Ref): (i: int)
    ensures -1 <= i < |refs|
    ensures i == -1 <==> x !in refs
    ensures 0 <= i ==> refs[i] == x && forall j :: 0 <= j < i ==> refs[j] != x
  {
    if |refs| == 0 then -1
    else if refs[0] == x then 0
    else
      var k := IndexOf(refs[1..], x);
      if k == -1 then -1 else k + 1
  }

  /** No earlier entry is the same reference. */
  predicate IsFirst(refs: seq<Ref>, i: int)
    requires 0 <= i < |refs|
  {
    forall j :: 0 <= j < i ==> refs[j] != refs[i]
  }

  predicate Distinct(refs: seq<Ref>) {
    forall i, j :: 0 <= i < j < |refs| ==> refs[i] != refs[j]
  }

  /** GetObjectsShaderRepresentation: an array as long as the list; every
      entry's record is written at IndexOf of that entry. A slot whose
      reference occurred earlier in the list is never written and keeps the
      all-zero record. */
  method GetObjectsShaderRepresentation(objects: seq<Ref>, heap: map<Ref, PathwayObjects.PathwayObject>)
    returns (out: seq<PathwayObjects.ShaderRepresentation>)
    requires forall r :: r in objects ==> r in heap
    ensures |out| == |objects|
    ensures forall i :: 0 <= i < |objects| ==>
      out[i] == (if IsFirst(objects, i) then PathwayObjects.GetShaderRepresentation(heap[objects[i]])
                 else PathwayObjects.ZeroRecord)
    ensures Distinct(objects) ==>
      forall i :: 0 <= i < |objects| ==> out[i] == PathwayObjects.GetShaderRepresentation(heap[objects[i]])
    ensures forall i, j :: 0 <= i < j < |objects| && objects[i] == objects[j] ==> out[j] == PathwayObjects.ZeroRecord
  {
    out := seq(|objects|, _ => PathwayObjects.ZeroRecord);
    var n := 0;
    while n < |objects|
      invariant 0 <= n <= |objects|
      invariant |out| == |objects|
      invariant forall s :: 0 <= s < |objects| ==>
        out[s] == (if s < n && IsFirst(objects, s) then PathwayObjects.GetShaderRepresentation(heap[objects[s]])
                   else PathwayObjects.ZeroRecord)
    {
      var obj := objects[n];
      var slot := IndexOf(objects, obj);
      out := out[slot := PathwayObjects.GetShaderRepresentation(heap[obj])];
      n := n + 1;
    }
  }
}
