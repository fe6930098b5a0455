/** personal_helper/notes.py: a note with a title, a content and a list of
    tags, each replaced by its own edit method. */
module PhNotes {
  import opened Outcomes

  class Note {
    var title: string
    var content: string
    var tags: seq<string>

    /** `Note(title, content, tags)`: missing or empty tags become `[]`. */
    constructor(title0: string, content0: string, tags0: Option<seq<string>>)
      ensures title == title0 && content == content0
      ensures tags == if tags0.Some? then tags0.value else []
    {
      title := title0;
      content := content0;
      tags := if tags0.Some? && tags0.value != [] then tags0.value else [];
    }

    method EditTitle(t: string)
      modifies this
      ensures title == t && content == old(content) && tags == old(tags)
    {
      title := t;
    }

    method EditContent(c: string)
      modifies this
      ensures content == c && title == old(title) && tags == old(tags)
    {
      content := c;
    }

    method EditTags(ts: seq<string>)
      modifies this
      ensures tags == ts && title == old(title) && content == old(content)
    {
      tags := ts;
    }
  }
}
