/** A context record as it is written down: two spellings and one meaning, and what a decoder that
    knows only the first makes of either. Parsed trees stand for the JSON text. */
module ContextRecord {
  import opened Options
  import opened Names
  import opened Lifecycle

  datatype Json = Null | Text(text: string) | List(items: seq<Json>) | Otherwise

  datatype Context = Context(id: string, members: seq<Member>, state: string, updatedAt: int)

  /** The record's fields as they are decoded; an absent string is empty, an absent list is empty,
      and only the repository keeps its tree, because its type says which spelling this is. */
  datatype Tree = Tree(
    id: string, repository: Option<Json>, branch: string, revision: string, graphRef: string,
    members: seq<Member>, state: string, updatedAt: int)

  // ---------------------------------------------------------------- writing and reading

  function Encode(c: Context): Tree {
    if |c.members| == 1 then
      var m := c.members[0];
      Tree(c.id, Some(Text(m.repository)), m.branch, m.revision, m.graphRef, [], c.state, c.updatedAt)
    else Tree(c.id, Some(List([])), "", "", "", c.members, c.state, c.updatedAt)
  }

  /** Decoding a tree into a string: null leaves it as it was, which is empty. */
  function StringOf(j: Json): Option<string> {
    match j
    case Text(s) => Some(s)
    case Null => Some("")
    case _ => None
  }

  /** Whether a tree decodes into an empty list of strings. */
  predicate NoNames(j: Json) { j.Null? || j == List([]) }

  predicate NamedInline(t: Tree) {
    (t.repository.Some? && !NoNames(t.repository.value)) || t.branch != "" || t.revision != "" || t.graphRef != ""
  }

  function MembersOf(t: Tree): Option<seq<Member>> {
    if t.members != [] then
      if NamedInline(t) then None else Some(t.members)
    else if t.repository.None? then None
    else match StringOf(t.repository.value)
      case None => None
      case Some(repository) => Some([Member(repository, t.branch, t.revision, t.graphRef)])
  }

  function Decode(t: Tree): Option<Context> {
    match MembersOf(t)
    case None => None
    case Some(members) => Some(Context(t.id, members, t.state, t.updatedAt))
  }

  /** The record in memory that a decoder writes into. */
  class Receiver {
    var id: string
    var members: seq<Member>
    var state: string
    var updatedAt: int

    /** Overwrites the receiver; a refused record leaves it with the members it had. */
    method Unmarshal(t: Tree) returns (ok: bool)
      modifies this
      ensures ok <==> Decode(t).Some?
      ensures ok ==> Context(id, members, state, updatedAt) == Decode(t).value
      ensures id == t.id && state == t.state && updatedAt == t.updatedAt
      ensures !ok ==> members == old(members)
    {
      id, state, updatedAt := t.id, t.state, t.updatedAt;
      if |t.members| > 0 {
        var named := true;
        if t.repository.Some? {
          named := NoNames(t.repository.value);
        }
        if !named || t.branch != "" || t.revision != "" || t.graphRef != "" {
          return false;
        }
        members := t.members;
        return true;
      }
      if t.repository.None? {
        return false;
      }
      var repository := StringOf(t.repository.value);
      if repository.None? {
        return false;
      }
      members := [Member(repository.value, t.branch, t.revision, t.graphRef)];
      return true;
    }
  }

  /** Field by field: of one repository all fields stand beside the id, of several they stand in the list
      and the repository is an empty one. */
  lemma EncodedFields(c: Context)
    ensures var t := Encode(c);
            && t.id == c.id && t.state == c.state && t.updatedAt == c.updatedAt
            && (if |c.members| == 1 then
                  && t.repository == Some(Text(c.members[0].repository)) && t.branch == c.members[0].branch
                  && t.revision == c.members[0].revision && t.graphRef == c.members[0].graphRef && t.members == []
                else t.repository == Some(List([])) && t.branch == "" && t.revision == "" && t.graphRef == "" && t.members == c.members)
  {}

  /** Decoding an encoded record gives it back exactly when it names a repository at all. */
  lemma EncodeDecode(c: Context)
    ensures Decode(Encode(c)) == Some(c) <==> c.members != []
    ensures c.members == [] ==> Decode(Encode(c)).None?
  {
    if |c.members| == 1 {
      assert c.members == [c.members[0]];
    }
  }

  /** Which records are read: a list alone, or a repository alone, never both and never neither. */
  lemma OneSpelling(t: Tree)
    ensures Decode(t).Some? <==>
            || (t.members != [] && (t.repository.None? || t.repository.value == Null || t.repository.value == List([]))
                && t.branch == "" && t.revision == "" && t.graphRef == "")
            || (t.members == [] && t.repository.Some? && (t.repository.value.Text? || t.repository.value.Null?))
  {}

  /** However a record was spelled, writing what was read and reading it again changes nothing, and
      the two spellings of one member are one context. */
  lemma ReadOnceForAll(t: Tree)
    requires Decode(t).Some?
    ensures Decode(Encode(Decode(t).value)) == Decode(t)
    ensures forall u :: Decode(u) == Decode(t) ==> Encode(Decode(u).value) == Encode(Decode(t).value)
  {
    EncodeDecode(Decode(t).value);
  }

  // ---------------------------------------------------------------- a decoder of one spelling

  /** The record as a decoder knows it that reads the repository as a string and no member list. */
  datatype Single = Single(id: string, pin: Member, state: string, updatedAt: int)

  function DecodeSingle(t: Tree): Option<Single> {
    var repository := if t.repository.None? then Some("") else StringOf(t.repository.value);
    match repository
    case None => None
    case Some(name) => Some(Single(t.id, Member(name, t.branch, t.revision, t.graphRef), t.state, t.updatedAt))
  }

  function EncodeSingle(s: Single): Tree {
    Tree(s.id, Some(Text(s.pin.repository)), s.pin.branch, s.pin.revision, s.pin.graphRef, [], s.state, s.updatedAt)
  }

  /** Such a decoder accepts exactly the encodings of one member, and reads them right; it can never
      take a context of several repositories for one that names none. */
  lemma SingleReadsOne(c: Context)
    ensures DecodeSingle(Encode(c)).Some? <==> |c.members| == 1
    ensures |c.members| == 1 ==> DecodeSingle(Encode(c)) == Some(Single(c.id, c.members[0], c.state, c.updatedAt))
  {}

  /** What it wrote is read here with no conversion, and written here as it wrote it. */
  lemma SingleCarriesOver(s: Single)
    ensures Decode(EncodeSingle(s)) == Some(Context(s.id, [s.pin], s.state, s.updatedAt))
    ensures Encode(Decode(EncodeSingle(s)).value) == EncodeSingle(s)
    ensures DecodeSingle(EncodeSingle(s)) == Some(s)
  {}

  /** The other way round it does not hold: a member list without a repository key is read here as
      what it says, and by such a decoder as a context that names no repository. */
  lemma ListAloneMisleads(c: Context)
    requires |c.members| > 1
    ensures var t := Encode(c).(repository := None);
            Decode(t) == Some(c) && DecodeSingle(t).Some? && DecodeSingle(t).value.pin.repository == ""
  {}

  // ---------------------------------------------------------------- filing

  /** Whether a context may be filed: a usable id, and at least one repository, each usable. */
  predicate Fileable(c: Context) {
    ValidName(c.id) && c.members != [] && forall i :: 0 <= i < |c.members| ==> ValidName(c.members[i].repository)
  }

  /** A record that is read without a members list names a repository exactly when its repository is a
      text that is not empty: null is read as a member without a name. */
  lemma NamesNothing(t: Tree)
    requires t.members == [] && Decode(t).Some?
    ensures Decode(t).value.members[0].repository == "" <==> t.repository == Some(Null) || t.repository == Some(Text(""))
    ensures t.repository == Some(Null) ==> !Fileable(Decode(t).value)
  {}

  class Store {
    /** The context records on disk, by the id they are filed under. */
    var contexts: map<string, Tree>

    /** Whether everything filed reads back as a context of its own id. */
    ghost predicate Valid()
      reads this
    {
      forall id :: id in contexts ==>
        Decode(contexts[id]).Some? && Decode(contexts[id]).value.id == id && Fileable(Decode(contexts[id]).value)
    }

    constructor ()
      ensures Valid() && contexts == map[]
    {
      contexts := map[];
    }

    method PutContext(c: Context, now: int) returns (ok: bool)
      requires Valid()
      modifies this
      ensures Valid()
      ensures ok <==> Fileable(c)
      ensures ok <==> ValidName(c.id) && c.members != [] && forall m :: m in c.members ==> ValidName(m.repository)
      ensures ok ==> contexts == old(contexts)[c.id := Encode(c.(updatedAt := now))]
      ensures !ok ==> contexts == old(contexts)
    {
      if !ValidName(c.id) || |c.members| == 0 {
        return false;
      }
      for i := 0 to |c.members|
        invariant contexts == old(contexts)
        invariant forall k :: 0 <= k < i ==> ValidName(c.members[k].repository)
      {
        if !ValidName(c.members[i].repository) {
          return false;
        }
      }
      var written := c.(updatedAt := now);
      EncodeDecode(written);
      assert Fileable(written);
      contexts := contexts[c.id := Encode(written)];
      return true;
    }

    /** A record that was filed is read back as it was filed, whatever else is filed. */
    method GetContext(id: string) returns (c: Option<Context>)
      requires Valid()
      ensures c.Some? <==> id in contexts
      ensures c.Some? ==> c == Decode(contexts[id]) && c.value.id == id && Fileable(c.value)
    {
      assert id in contexts ==> ValidName(id);
      if !ValidName(id) {
        return None;
      }
      if id !in contexts {
        return None;
      }
      return Decode(contexts[id]);
    }

    method DeleteContext(id: string) returns (ok: bool)
      requires Valid()
      modifies this
      ensures Valid()
      ensures ok <==> id in old(contexts)
      ensures contexts == old(contexts) - {id}
    {
      assert id in contexts ==> ValidName(id);
      if !ValidName(id) {
        return false;
      }
      ok := id in contexts;
      contexts := contexts - {id};
    }
  }
}
