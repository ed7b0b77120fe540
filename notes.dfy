/** Notes: short texts a user attaches to a conversation or a receiver, or
    addresses to the administrators, with the queries that list them. */
module Notes {
  import opened Common

  /** The value every note gets for its `type` field by schema default. */
  const NoteKind: string := "note"

  /** A stored note. `groupId` is not a field of the note schema and no
      handler sets it; it is kept so that the query by group can be stated. */
  datatype Note = Note(
    id: nat, text: string, userId: string,
    conversationId: Option<string>, receiverId: Option<string>, groupId: Option<string>,
    toAdmin: bool, kind: string, createdAt: int, updatedAt: int)

  /** The key of the note table. */
  function NoteId(n: Note): nat {
    n.id
  }

  /** What every note written by the handlers satisfies: the schema defaults
      for `type`, a truthy text and user, no group, and either an admin note
      with no conversation or receiver, or an ordinary note with at least one
      of the two. */
  predicate WellFormed(n: Note) {
    && n.kind == NoteKind
    && n.groupId.None?
    && n.text != "" && n.userId != ""
    && (n.toAdmin ==> n.conversationId.None? && n.receiverId.None?)
    && (!n.toAdmin ==> Present(n.conversationId) || Present(n.receiverId))
  }

  /** `findById`: the index of the note with the given id. */
  function NoteIndex(ns: seq<Note>, id: nat): (r: Option<nat>)
    ensures r.Some? ==> r.value < |ns| && ns[r.value].id == id
    ensures r.None? <==> forall j :: 0 <= j < |ns| ==> ns[j].id != id
  {
    FirstIndex(ns, (n: Note) => n.id == id)
  }

  /** `getAllNotes` (`find({ type: "note" })`). */
  function AllNotes(ns: seq<Note>): (r: seq<Note>)
    ensures forall i :: 0 <= i < |r| ==> r[i] in ns && r[i].kind == NoteKind
    ensures forall i :: 0 <= i < |ns| && ns[i].kind == NoteKind ==> ns[i] in r
    ensures forall x :: multiset(r)[x] == if x.kind == NoteKind then multiset(ns)[x] else 0
  {
    Filter(ns, (n: Note) => n.kind == NoteKind)
  }

  /** `getNotesByConversationId` (`find({ type: "note", conversationId })`). */
  function ConversationNotes(ns: seq<Note>, conversationId: string): (r: seq<Note>)
    ensures forall i :: 0 <= i < |r| ==> r[i] in ns && r[i].kind == NoteKind && r[i].conversationId == Some(conversationId)
    ensures forall i :: 0 <= i < |ns| && ns[i].kind == NoteKind && ns[i].conversationId == Some(conversationId) ==> ns[i] in r
    ensures forall x :: multiset(r)[x] == if x.kind == NoteKind && x.conversationId == Some(conversationId) then multiset(ns)[x] else 0
  {
    Filter(ns, (n: Note) => n.kind == NoteKind && n.conversationId == Some(conversationId))
  }

  /** `getAdminNotes` (`find({ type: "note", toAdmin: true })`). */
  function AdminNotes(ns: seq<Note>): (r: seq<Note>)
    ensures forall i :: 0 <= i < |r| ==> r[i] in ns && r[i].kind == NoteKind && r[i].toAdmin
    ensures forall i :: 0 <= i < |ns| && ns[i].kind == NoteKind && ns[i].toAdmin ==> ns[i] in r
    ensures forall x :: multiset(r)[x] == if x.kind == NoteKind && x.toAdmin then multiset(ns)[x] else 0
  {
    Filter(ns, (n: Note) => n.kind == NoteKind && n.toAdmin)
  }

  datatype GroupNotesOutcome = GroupIdRequired | GroupNotes(notes: seq<Note>) {
    function Status(): int {
      if GroupIdRequired? then 400 else 200
    }
  }

  /** `getNotesByGroupId`: 400 for a falsy group id, otherwise the type-"note"
      records whose `groupId` equals it. */
  function NotesOfGroup(ns: seq<Note>, groupId: Option<string>): (r: GroupNotesOutcome)
    ensures r.GroupIdRequired? <==> !Present(groupId)
    ensures r.GroupNotes? ==> forall i :: 0 <= i < |r.notes| ==>
      r.notes[i] in ns && r.notes[i].kind == NoteKind && r.notes[i].groupId == groupId
    ensures r.GroupNotes? ==> forall i :: 0 <= i < |ns| && ns[i].kind == NoteKind && ns[i].groupId == groupId ==> ns[i] in r.notes
    ensures r.GroupNotes? ==> forall x :: multiset(r.notes)[x] == if x.kind == NoteKind && x.groupId == groupId then multiset(ns)[x] else 0
  {
    if !Present(groupId) then GroupIdRequired
    else GroupNotes(Filter(ns, (n: Note) => n.kind == NoteKind && n.groupId == groupId))
  }

  /** Over notes written by the handlers, every note has type "note", so
      `getAllNotes` lists the whole table in stored order. */
  lemma AllNotesIsEverything(ns: seq<Note>)
    requires forall i :: 0 <= i < |ns| ==> WellFormed(ns[i])
    ensures AllNotes(ns) == ns
  {
    FilterKeepsAll(ns, (n: Note) => n.kind == NoteKind);
  }

  /** Over notes written by the handlers, the query by group finds nothing:
      no handler stores a group id. */
  lemma GroupNotesAlwaysEmpty(ns: seq<Note>, groupId: string)
    requires forall i :: 0 <= i < |ns| ==> WellFormed(ns[i])
    requires groupId != ""
    ensures NotesOfGroup(ns, Some(groupId)) == GroupNotes([])
  {
    assert forall n :: n in ns ==> n.groupId.None?;
  }

  /** Admin notes carry no conversation, so they never show up in a
      conversation's notes; ordinary notes never show up among the admin notes. */
  lemma AdminAndConversationDisjoint(ns: seq<Note>, conversationId: string)
    requires forall i :: 0 <= i < |ns| ==> WellFormed(ns[i])
    ensures forall n :: n in AdminNotes(ns) ==> n !in ConversationNotes(ns, conversationId)
  {
    forall n | n in AdminNotes(ns)
      ensures n !in ConversationNotes(ns, conversationId)
    {
      assert n in ns;
    }
  }

  datatype NoteOutcome = NoteFieldsRequired | NoteNotFound | NoteCreated(note: Note) | NoteUpdated(note: Note) | NoteDeleted {
    function Status(): int {
      match this
      case NoteFieldsRequired => 400
      case NoteNotFound => 404
      case NoteCreated(_) => 201
      case NoteUpdated(_) => 200
      case NoteDeleted => 200
    }
  }

  /** The note table; `nextId` stands for the store's id generator. */
  class NoteStore {
    var notes: seq<Note>
    var nextId: nat

    /** Ids are unique and below `nextId`, and every stored note is well formed. */
    ghost predicate Valid()
      reads this
    {
      && UniqueKeys(notes, NoteId)
      && (forall i :: 0 <= i < |notes| ==> notes[i].id < nextId)
      && (forall i :: 0 <= i < |notes| ==> WellFormed(notes[i]))
    }

    constructor ()
      ensures Valid() && notes == []
    {
      notes := [];
      nextId := 0;
    }

    /** `createNote`: refused with 400, storing nothing, unless text and user
        are truthy and a conversation or a receiver is given; otherwise one
        ordinary note (type "note", not for the admin) is added. */
    method CreateNote(text: Option<string>, userId: Option<string>, conversationId: Option<string>,
                      receiverId: Option<string>, now: int) returns (out: NoteOutcome)
      requires Valid()
      modifies this
      ensures Valid()
      ensures out.NoteFieldsRequired? <==>
        !Present(text) || !Present(userId) || (!Present(conversationId) && !Present(receiverId))
      ensures out.NoteFieldsRequired? ==> notes == old(notes) && nextId == old(nextId)
      ensures out.NoteFieldsRequired? || out.NoteCreated?
      ensures out.NoteCreated? ==>
        && out.note == Note(old(nextId), text.value, userId.value, conversationId, receiverId, None, false, NoteKind, now, now)
        && notes == old(notes) + [out.note]
        && out.note !in AdminNotes(notes)
    {
      if !Present(text) || !Present(userId) || (!Present(conversationId) && !Present(receiverId)) {
        return NoteFieldsRequired;
      }
      var n := Note(nextId, text.value, userId.value, conversationId, receiverId, None, false, NoteKind, now, now);
      notes := notes + [n];
      nextId := nextId + 1;
      out := NoteCreated(n);
    }

    /** `createNoteForAdmin`: refused with 400 unless text and user are
        truthy; otherwise one admin note is added, and it is listed by
        `getAdminNotes`. */
    method CreateNoteForAdmin(text: Option<string>, userId: Option<string>, now: int) returns (out: NoteOutcome)
      requires Valid()
      modifies this
      ensures Valid()
      ensures out.NoteFieldsRequired? <==> !Present(text) || !Present(userId)
      ensures out.NoteFieldsRequired? ==> notes == old(notes) && nextId == old(nextId)
      ensures out.NoteFieldsRequired? || out.NoteCreated?
      ensures out.NoteCreated? ==>
        && out.note == Note(old(nextId), text.value, userId.value, None, None, None, true, NoteKind, now, now)
        && notes == old(notes) + [out.note]
        && out.note in AdminNotes(notes)
    {
      if !Present(text) || !Present(userId) {
        return NoteFieldsRequired;
      }
      var n := Note(nextId, text.value, userId.value, None, None, None, true, NoteKind, now, now);
      notes := notes + [n];
      nextId := nextId + 1;
      assert notes[|notes| - 1] == n;
      out := NoteCreated(n);
    }

    /** `updateNote`: 404 when no note has the id; otherwise the text is
        replaced unless the new one is falsy, `updatedAt` is set, and no other
        note changes. */
    method UpdateNote(id: nat, text: Option<string>, now: int) returns (out: NoteOutcome)
      requires Valid()
      modifies this
      ensures Valid() && nextId == old(nextId)
      ensures out.NoteNotFound? <==> old(NoteIndex(notes, id)).None?
      ensures out.NoteNotFound? ==> notes == old(notes)
      ensures out.NoteNotFound? || out.NoteUpdated?
      ensures out.NoteUpdated? ==>
        var i := old(NoteIndex(notes, id)).value;
        var before := old(notes)[i];
        && out.note == before.(text := OrElse(text, before.text), updatedAt := now)
        && notes == old(notes)[i := out.note]
    {
      match NoteIndex(notes, id)
      case None =>
        out := NoteNotFound;
      case Some(i) =>
        var n := notes[i];
        n := n.(text := OrElse(text, n.text));
        n := n.(updatedAt := now);
        assert WellFormed(n);
        ReplaceAtKey(notes, NoteId, i, n);
        notes := notes[i := n];
        out := NoteUpdated(n);
    }

    /** `deleteNote`: 404 when no note has the id; otherwise exactly that note
        is deleted. */
    method DeleteNote(id: nat) returns (out: NoteOutcome)
      requires Valid()
      modifies this
      ensures Valid() && nextId == old(nextId)
      ensures out.NoteNotFound? <==> old(NoteIndex(notes, id)).None?
      ensures out.NoteNotFound? ==> notes == old(notes)
      ensures out.NoteNotFound? || out.NoteDeleted?
      ensures out.NoteDeleted? ==>
        var i := old(NoteIndex(notes, id)).value;
        notes == old(notes)[..i] + old(notes)[i + 1..]
      ensures forall n :: n in notes <==> n in old(notes) && n.id != id
    {
      match NoteIndex(notes, id)
      case None =>
        out := NoteNotFound;
      case Some(i) =>
        RemoveAtKey(notes, NoteId, i);
        notes := notes[..i] + notes[i + 1..];
        out := NoteDeleted;
    }
  }
}
