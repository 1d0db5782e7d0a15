// Decoded JSON, and the places in it.
module JsonTree {
  import opened Wrappers

  // What encoding/json decodes into: an object is a map, so its members have no order.
  datatype Json =
    | Null
    | Bool(b: bool)
    | Number(literal: string)
    | Str(text: string)
    | Array(elements: seq<Json>)
    | Object(members: map<string, Json>)

  // A place is reached by going from the root into members and elements.
  datatype Hop = Member(key: string) | Element(index: nat)

  // What is seen at one place, without looking further down.
  datatype Node = Scalar(value: Json) | ArrayOf(length: nat) | ObjectWith(keys: set<string>)

  function NodeOf(t: Json): Node
  {
    match t
    case Array(elements) => ArrayOf(|elements|)
    case Object(members) => ObjectWith(members.Keys)
    case _ => Scalar(t)
  }

  function Look(t: Json, path: seq<Hop>): Option<Node>
    decreases |path|
  {
    if path == [] then Some(NodeOf(t))
    else
      match (path[0], t)
      case (Member(key), Object(members)) => if key in members then Look(members[key], path[1..]) else None
      case (Element(i), Array(elements)) => if i < |elements| then Look(elements[i], path[1..]) else None
      case _ => None
  }

  // A tree is determined by what is seen at its places.
  lemma {:induction false} SameLooksSameTree(t: Json, u: Json)
    requires forall path :: Look(t, path) == Look(u, path)
    ensures t == u
    decreases t
  {
    assert Look(t, []) == Look(u, []);
    match t
    case Array(elements) =>
      forall i | 0 <= i < |elements|
        ensures elements[i] == u.elements[i]
      {
        forall path
          ensures Look(elements[i], path) == Look(u.elements[i], path)
        {
          assert ([Element(i)] + path)[1..] == path;
          assert Look(t, [Element(i)] + path) == Look(u, [Element(i)] + path);
        }
        SameLooksSameTree(elements[i], u.elements[i]);
      }
    case Object(members) =>
      forall key | key in members
        ensures members[key] == u.members[key]
      {
        forall path
          ensures Look(members[key], path) == Look(u.members[key], path)
        {
          assert ([Member(key)] + path)[1..] == path;
          assert Look(t, [Member(key)] + path) == Look(u, [Member(key)] + path);
        }
        SameLooksSameTree(members[key], u.members[key]);
      }
    case _ =>
  }
}
