/** Loaded JSON documents and the harvesting of citation tags from them, as
    the two prefetch scripts (prefetch_doi.py and prefetch_pubmed.py) walk
    them: objects by their values in order, arrays item by item, strings as
    leaves, every other scalar contributing nothing. */
module JsonTags {
  import opened Basics

  /** A JSON value after `json.load`; an object keeps its members in order.
      `json.load` never gives an object two members with one key (the last
      value read wins), so on a loaded document the member lists below have
      distinct keys; the walks are defined on any member list all the same. */
  datatype Json =
    | JObject(members: seq<Member>)
    | JArray(items: seq<Json>)
    | JString(text: string)
    | JNumber(number: int)
    | JBool(truth: bool)
    | JNull

  /** A key of an object and the value filed under it. */
  datatype Member = Member(key: string, value: Json)

  /** The string values of a document, depth first; object keys are not values. */
  function Leaves(j: Json): seq<string>
    decreases j, 1
  {
    match j
    case JObject(ms) => MemberLeaves(ms)
    case JArray(xs) => ItemLeaves(xs)
    case JString(s) => [s]
    case _ => []
  }

  function ItemLeaves(xs: seq<Json>): seq<string>
    decreases xs, 0
  {
    if xs == [] then [] else ItemLeaves(xs[..|xs| - 1]) + Leaves(xs[|xs| - 1])
  }

  function MemberLeaves(ms: seq<Member>): seq<string>
    decreases ms, 0
  {
    if ms == [] then [] else MemberLeaves(ms[..|ms| - 1]) + Leaves(ms[|ms| - 1].value)
  }

  /** What a walk collects: the tag `pick` makes of each string value it
      accepts, depth first. */
  function Tags(j: Json, pick: string -> Option<string>): seq<string>
    decreases j, 1
  {
    match j
    case JObject(ms) => MemberTags(ms, pick)
    case JArray(xs) => ItemTags(xs, pick)
    case JString(s) => if pick(s).Some? then [pick(s).value] else []
    case _ => []
  }

  function ItemTags(xs: seq<Json>, pick: string -> Option<string>): seq<string>
    decreases xs, 0
  {
    if xs == [] then [] else ItemTags(xs[..|xs| - 1], pick) + Tags(xs[|xs| - 1], pick)
  }

  function MemberTags(ms: seq<Member>, pick: string -> Option<string>): seq<string>
    decreases ms, 0
  {
    if ms == [] then [] else MemberTags(ms[..|ms| - 1], pick) + Tags(ms[|ms| - 1].value, pick)
  }

  /** The values of an object's members, in order. */
  function Values(ms: seq<Member>): (vs: seq<Json>)
    ensures |vs| == |ms| && forall i | 0 <= i < |ms| :: vs[i] == ms[i].value
  {
    if ms == [] then [] else Values(ms[..|ms| - 1]) + [ms[|ms| - 1].value]
  }

  /** An object is walked as the array of its values: its keys are never
      looked at, so renaming them changes nothing. */
  lemma {:induction false} ObjectWalkedAsValues(ms: seq<Member>, pick: string -> Option<string>)
    ensures Tags(JObject(ms), pick) == Tags(JArray(Values(ms)), pick)
  {
    if ms != [] {
      var init := ms[..|ms| - 1];
      ObjectWalkedAsValues(init, pick);
      assert Values(ms)[..|ms| - 1] == Values(init);
    }
  }

  /** What a walk keeps of the leaves: the tag `pick` makes of each leaf it
      accepts, in order. */
  function Picked(leaves: seq<string>, pick: string -> Option<string>): seq<string>
  {
    if leaves == [] then []
    else
      var t := pick(leaves[|leaves| - 1]);
      Picked(leaves[..|leaves| - 1], pick) + if t.Some? then [t.value] else []
  }

  /** Keeping tags commutes with concatenating leaves. */
  lemma {:induction false} PickedConcat(a: seq<string>, b: seq<string>, pick: string -> Option<string>)
    ensures Picked(a + b, pick) == Picked(a, pick) + Picked(b, pick)
  {
    if b == [] {
      assert a + b == a;
    } else {
      var init := b[..|b| - 1];
      assert (a + b)[..|a + b| - 1] == a + init;
      PickedConcat(a, init, pick);
    }
  }

  /** A tag is kept exactly when some leaf yields it. */
  lemma {:induction false} PickedMembers(leaves: seq<string>, pick: string -> Option<string>, t: string)
    ensures t in Picked(leaves, pick) <==> exists s | s in leaves :: pick(s) == Some(t)
  {
    if leaves != [] {
      var init := leaves[..|leaves| - 1];
      var s := leaves[|leaves| - 1];
      PickedMembers(init, pick, t);
      assert leaves == init + [s];
      if exists s' | s' in leaves :: pick(s') == Some(t) {
        var s' :| s' in leaves && pick(s') == Some(t);
        if s' != s {
          assert s' in init;
        }
      }
    }
  }

  /** The walk keeps exactly the tags of the document's string values, in
      order: the same as listing every string value depth first and then
      keeping the tags. */
  lemma {:induction false} TagsArePickedLeaves(j: Json, pick: string -> Option<string>)
    ensures Tags(j, pick) == Picked(Leaves(j), pick)
    decreases j, 1
  {
    match j
    case JObject(ms) => MemberTagsArePicked(ms, pick);
    case JArray(xs) => ItemTagsArePicked(xs, pick);
    case JString(s) => assert Picked([s], pick) == Picked([], pick) + (if pick(s).Some? then [pick(s).value] else []);
    case _ =>
  }

  lemma {:induction false} ItemTagsArePicked(xs: seq<Json>, pick: string -> Option<string>)
    ensures ItemTags(xs, pick) == Picked(ItemLeaves(xs), pick)
    decreases xs, 0
  {
    if xs != [] {
      var init := xs[..|xs| - 1];
      ItemTagsArePicked(init, pick);
      TagsArePickedLeaves(xs[|xs| - 1], pick);
      PickedConcat(ItemLeaves(init), Leaves(xs[|xs| - 1]), pick);
    }
  }

  lemma {:induction false} MemberTagsArePicked(ms: seq<Member>, pick: string -> Option<string>)
    ensures MemberTags(ms, pick) == Picked(MemberLeaves(ms), pick)
    decreases ms, 0
  {
    if ms != [] {
      var init := ms[..|ms| - 1];
      MemberTagsArePicked(init, pick);
      TagsArePickedLeaves(ms[|ms| - 1].value, pick);
      PickedConcat(MemberLeaves(init), Leaves(ms[|ms| - 1].value), pick);
    }
  }

  /** A tag is collected exactly when some string value of the document yields it. */
  lemma TagMembers(j: Json, pick: string -> Option<string>, t: string)
    ensures t in Tags(j, pick) <==> exists s | s in Leaves(j) :: pick(s) == Some(t)
  {
    TagsArePickedLeaves(j, pick);
    PickedMembers(Leaves(j), pick, t);
  }

  /** The list a walk appends to, shared by every recursive call. */
  class TagList {
    var items: seq<string>

    constructor ()
      ensures items == []
    {
      items := [];
    }

    /** `existing_results.append(tag)` */
    method Append(t: string)
      modifies this
      ensures items == old(items) + [t]
    {
      items := items + [t];
    }
  }

  /** The recursive walk of `gather_dois` and `gather_references`: the tag
      `pick` makes of each string value, appended in depth-first order after
      whatever the list already held. */
  method Gather(data: Json, results: TagList, pick: string -> Option<string>)
    modifies results
    ensures results.items == old(results.items) + Tags(data, pick)
    decreases data, 1
  {
    match data {
      case JObject(ms) =>
        GatherMembers(ms, results, pick);
      case JArray(xs) =>
        GatherItems(xs, results, pick);
      case JString(s) =>
        var t := pick(s);
        if t.Some? {
          results.Append(t.value);
        }
      case JNumber(_) =>
      case JBool(_) =>
      case JNull =>
    }
  }

  /** `for key, val in data.items(): gather(val, existing_results)` */
  method GatherMembers(ms: seq<Member>, results: TagList, pick: string -> Option<string>)
    modifies results
    ensures results.items == old(results.items) + MemberTags(ms, pick)
    decreases ms, 0
  {
    for i := 0 to |ms|
      invariant results.items == old(results.items) + MemberTags(ms[..i], pick)
    {
      assert ms[..i + 1][..i] == ms[..i];
      Gather(ms[i].value, results, pick);
    }
    assert ms[..|ms|] == ms;
  }

  /** `for val in data: gather(val, existing_results)` */
  method GatherItems(xs: seq<Json>, results: TagList, pick: string -> Option<string>)
    modifies results
    ensures results.items == old(results.items) + ItemTags(xs, pick)
    decreases xs, 0
  {
    for i := 0 to |xs|
      invariant results.items == old(results.items) + ItemTags(xs[..i], pick)
    {
      assert xs[..i + 1][..i] == xs[..i];
      Gather(xs[i], results, pick);
    }
    assert xs[..|xs|] == xs;
  }

  /** The entry point with its default: a fresh list when none is given,
      otherwise the given list, extended and returned. */
  method GatherInto(data: Json, existing: Option<TagList>, pick: string -> Option<string>) returns (r: TagList)
    modifies if existing.Some? then {existing.value} else {}
    ensures existing.Some? ==> r == existing.value && r.items == old(existing.value.items) + Tags(data, pick)
    ensures existing.None? ==> fresh(r) && r.items == Tags(data, pick)
  {
    if existing.None? {
      r := new TagList();
    } else {
      r := existing.value;
    }
    Gather(data, r, pick);
  }
}
