/** src/notes_manager.py: the list of notes, with appending, first-match
    search, edit and delete by title, the case-insensitive tag filter and the
    sort by first tag. src/notes.py is not part of this model; its `Note` is
    taken to be the one of personal_helper/notes.py. `Storage.save_notes` is
    counted in `saves`; the tables printed are not modelled. */
module SrcNotesManager {
  import opened Outcomes
  import opened Text
  import opened Seqs
  import opened StableSort
  import opened PhNotes

  /** One of the three attributes `edit_note` may set. */
  datatype NoteEdit = SetTitle(title: string) | SetContent(content: string) | SetTags(tags: seq<string>)

  /** `tag.lower() in [t.lower() for t in note.tags]` */
  predicate HasTag(tags: seq<string>, tag: string)
  {
    exists i :: 0 <= i < |tags| && Lower(tags[i]) == Lower(tag)
  }

  /** The tag filter, over the notes' tag lists. */
  function WithTag(notes: seq<Note>, tag: string): (r: seq<Note>)
    reads set n | n in notes
    ensures |r| <= |notes|
    ensures forall a :: 0 <= a < |r| ==> r[a] in notes && HasTag(r[a].tags, tag)
    ensures forall i :: 0 <= i < |notes| && HasTag(notes[i].tags, tag) ==> notes[i] in r
  {
    if notes == [] then []
    else
      var p := notes[..|notes| - 1];
      var last := notes[|notes| - 1];
      assert forall i :: 0 <= i < |notes| - 1 ==> notes[i] == p[i];
      WithTag(p, tag) + (if HasTag(last.tags, tag) then [last] else [])
  }

  /** The filter keeps the notes in list order: it is the notes whose index
      is kept, in order. */
  lemma {:induction false} WithTagKeepsOrder(notes: seq<Note>, tag: string, a: seq<Note>, b: seq<Note>)
    requires notes == a + b
    ensures WithTag(notes, tag) == WithTag(a, tag) + WithTag(b, tag)
    decreases |b|
  {
    if b != [] {
      var b' := b[..|b| - 1];
      assert notes[..|notes| - 1] == a + b';
      WithTagKeepsOrder(a + b', tag, a, b');
    } else {
      assert notes == a;
    }
  }

  /** Case does not matter on either side. */
  lemma {:induction false} WithTagIgnoresCase(notes: seq<Note>, tag: string)
    ensures WithTag(notes, Lower(tag)) == WithTag(notes, tag)
  {
    LowerIdempotent(tag);
    if notes != [] {
      WithTagIgnoresCase(notes[..|notes| - 1], tag);
    }
  }

  /** The sort key: the first tag lower-cased, or `""` for an untagged note. */
  function Key(tags: seq<string>): string
  {
    if tags != [] then Lower(tags[0]) else ""
  }

  /** Untagged notes have the smallest key. */
  lemma UntaggedFirst(tags: seq<string>, other: seq<string>)
    requires tags == []
    ensures StrLe(Key(tags), Key(other))
  {
  }

  class NotesManager {
    var notes: seq<Note>
    var saves: nat

    constructor(loaded: seq<Note>)
      ensures notes == loaded && saves == 0
    {
      notes := loaded;
      saves := 0;
    }

    function Titles(): (ts: seq<string>)
      reads this, set n | n in notes
      ensures |ts| == |notes| && forall i :: 0 <= i < |notes| ==> ts[i] == notes[i].title
    {
      seq(|notes|, i requires 0 <= i < |notes| reads this, set n | n in notes => notes[i].title)
    }

    function Keys(): (ks: seq<string>)
      reads this, set n | n in notes
      ensures |ks| == |notes| && forall i :: 0 <= i < |notes| ==> ks[i] == Key(notes[i].tags)
    {
      seq(|notes|, i requires 0 <= i < |notes| reads this, set n | n in notes => Key(notes[i].tags))
    }

    /** `add_note(title, content, tags)`: one new note at the end. */
    method AddNote(title: string, content: string, tags: Option<seq<string>>) returns (n: Note)
      modifies this
      ensures fresh(n) && notes == old(notes) + [n] && saves == old(saves) + 1
      ensures n.title == title && n.content == content && n.tags == if tags.Some? then tags.value else []
    {
      n := new Note(title, content, tags);
      notes := notes + [n];
      saves := saves + 1;
    }

    /** `find_note_by_title(title)`: the first note with exactly that
        title. */
    method FindNoteByTitle(title: string) returns (r: Option<Note>)
      ensures var k := FirstIndex(Titles(), title);
        r == if k < 0 then None else Some(notes[k])
    {
      ghost var titles := Titles();
      var i := 0;
      while i < |notes|
        invariant 0 <= i <= |notes|
        invariant title !in titles[..i]
      {
        if notes[i].title == title {
          assert titles[..i + 1] == titles[..i] + [title];
          FirstIndexOfPrefix(titles, title, i);
          return Some(notes[i]);
        }
        assert titles[..i + 1] == titles[..i] + [titles[i]];
        i := i + 1;
      }
      assert titles[..i] == titles;
      return None;
    }

    /** `edit_note(title, field, value)`: sets one attribute of the first
        note with that title and saves; without a match nothing changes. */
    method EditNote(title: string, edit: NoteEdit) returns (edited: bool)
      modifies this, set n | n in notes
      ensures notes == old(notes)
      ensures var k := old(FirstIndex(Titles(), title));
        edited == (k >= 0) &&
        (k < 0 ==> saves == old(saves) && forall n :: n in notes ==> unchanged(n)) &&
        (k >= 0 ==>
          saves == old(saves) + 1 && forall n :: n in notes && n != notes[k] ==> unchanged(n))
      ensures var k := old(FirstIndex(Titles(), title));
        k >= 0 ==> var n := notes[k];
          match edit
          case SetTitle(t) => n.title == t && n.content == old(n.content) && n.tags == old(n.tags)
          case SetContent(c) => n.content == c && n.title == old(n.title) && n.tags == old(n.tags)
          case SetTags(ts) => n.tags == ts && n.title == old(n.title) && n.content == old(n.content)
    {
      var found := FindNoteByTitle(title);
      if found.None? {
        return false;
      }
      var n := found.value;
      match edit {
        case SetTitle(t) => n.EditTitle(t);
        case SetContent(c) => n.EditContent(c);
        case SetTags(ts) => n.EditTags(ts);
      }
      saves := saves + 1;
      return true;
    }

    /** `delete_note_by_title(title)`: removes the first note with that
        title and saves; without a match nothing changes. */
    method DeleteNoteByTitle(title: string) returns (deleted: bool)
      modifies this
      ensures var k := old(FirstIndex(Titles(), title));
        deleted == (k >= 0) &&
        (k < 0 ==> notes == old(notes) && saves == old(saves)) &&
        (k >= 0 ==> notes == old(notes[..k] + notes[k + 1..]) && saves == old(saves) + 1)
      ensures deleted ==> notes == RemoveFirst(old(notes), old(notes[FirstIndex(Titles(), title)]))
    {
      ghost var titles := Titles();
      var i := 0;
      while i < |notes|
        invariant 0 <= i <= |notes|
        invariant title !in titles[..i]
        invariant notes == old(notes)
      {
        if notes[i].title == title {
          assert titles[..i + 1] == titles[..i] + [title];
          FirstIndexOfPrefix(titles, title, i);
          SameFirst(notes, titles, i);
          notes := notes[..i] + notes[i + 1..];
          saves := saves + 1;
          return true;
        }
        assert titles[..i + 1] == titles[..i] + [titles[i]];
        i := i + 1;
      }
      assert titles[..i] == titles;
      return false;
    }

    /** The tag filter of `find_notes_by_tag(tag)`. */
    function FindNotesByTag(tag: string): (r: seq<Note>)
      reads this, set n | n in notes
      ensures forall a :: 0 <= a < |r| ==> r[a] in notes && HasTag(r[a].tags, tag)
      ensures forall i :: 0 <= i < |notes| && HasTag(notes[i].tags, tag) ==> notes[i] in r
    {
      WithTag(notes, tag)
    }

    /** `sorted(self.notes, key=…)` in `sort_notes_by_tag`: a new list,
        stable, by first tag lower-cased; `notes` itself is untouched. */
    function SortedByTag(): (r: seq<Note>)
      reads this, set n | n in notes
      ensures r == Pick(notes, StableOrder(Keys())) && StableArrangement(Keys(), StableOrder(Keys()))
      ensures forall a :: 0 <= a < |r| ==> r[a] in notes
      ensures |r| == |notes| && multiset(r) == multiset(notes)
      ensures forall a, b :: 0 <= a < b < |r| ==> StrLe(Key(r[a].tags), Key(r[b].tags))
    {
      var keys := Keys();
      StableSortFacts(notes, keys);
      var r := Pick(notes, StableOrder(keys));
      assert forall a :: 0 <= a < |r| ==> Key(r[a].tags) == keys[StableOrder(keys)[a]];
      r
    }
  }

  /** The first index of `x` once `x` is found at `i` and not before it. */
  lemma FirstIndexOfPrefix<T>(s: seq<T>, x: T, i: nat)
    requires i < |s| && s[i] == x && x !in s[..i]
    ensures FirstIndex(s, x) == i
  {
  }

  /** When the first note titled `t` sits at `i`, it is also the first
      occurrence of that note object. */
  lemma SameFirst(notes: seq<Note>, titles: seq<string>, i: nat)
    requires |titles| == |notes| && i < |notes|
    requires forall j :: 0 <= j < |notes| ==> titles[j] == notes[j].title
    requires titles[i] !in titles[..i]
    ensures RemoveFirst(notes, notes[i]) == notes[..i] + notes[i + 1..]
  {
    assert notes[i] !in notes[..i] by {
      forall j | 0 <= j < i ensures notes[j] != notes[i] {
        assert titles[..i][j] == titles[j];
      }
    }
    FirstIndexOfPrefix(notes, notes[i], i);
  }
}
