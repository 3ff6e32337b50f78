/**
 * The topic page of src/components/TopicViewer.jsx: toolbar intents become
 * editing commands on the document body, every command is followed by an
 * auto-save of the topic, and the diagram renderer is re-run when the
 * topic's content changes.
 *
 * The browser's editing command and the count of diagram nodes in a body
 * are supplied from outside as functions (`exec`, `diagrams`): the model
 * treats the body as an opaque string.
 */
module Viewer {
  import opened Records
  import opened Store

  /** An editing command: its name and its optional value (execCommand's first and third arguments). */
  datatype Command = Command(name: string, value: Option<string>)

  const HILITE_COLOR := "hiliteColor"
  const REMOVE_FORMAT := "removeFormat"

  /** JavaScript truthiness of a colour argument: neither null nor the empty string. */
  predicate IsColor(color: Option<string>)
  {
    color.Some? && color.value != ""
  }

  /** handleHighlight's choice of command: a colour highlights, anything falsy clears formatting. */
  function HighlightCommand(color: Option<string>): (c: Command)
    ensures IsColor(color) ==> c == Command(HILITE_COLOR, color)
    ensures !IsColor(color) ==> c == Command(REMOVE_FORMAT, None)
  {
    if IsColor(color) then Command(HILITE_COLOR, color) else Command(REMOVE_FORMAT, None)
  }

  /** A highlight intent issues `hiliteColor` exactly when it carries a colour, and never with an empty value. */
  lemma HighlightCommandCases(color: Option<string>)
    ensures HighlightCommand(color).name == HILITE_COLOR <==> IsColor(color)
    ensures HighlightCommand(color).value.Some? ==> HighlightCommand(color).value.value != ""
  {
  }

  /** handleFormat: the toolbar's format name, with no value. */
  function FormatCommand(kind: string): (c: Command)
    ensures c.name == kind && c.value.None?
  {
    Command(kind, None)
  }

  /** The record handleInput saves: the shown topic with only its content and modification time replaced. */
  function SavedRecord(topic: Topic, content: string, now: int): (r: Topic)
    ensures r.id == topic.id && r.subjectId == topic.subjectId && r.title == topic.title
    ensures r.content == content && r.lastModified == now
  {
    topic.(content := content, lastModified := now)
  }

  /** The TopicViewer component: its topic prop, the editable body and the database it saves to. */
  class TopicViewer {
    const db: Database
    const exec: (Command, string) -> string
    const diagrams: string -> nat
    var topic: Topic
    /** The innerHTML of the content element; None while the element is not mounted. */
    var body: Option<string>
    /** The topic content the diagram effect last ran for; None before the first commit. */
    var renderedFor: Option<string>
    /** Every record this viewer handed to saveTopic, in order. */
    ghost var saves: seq<Topic>
    /** How many times the diagram renderer was invoked. */
    ghost var renderPasses: nat

    ghost predicate Valid()
      reads this, db
    {
      db.Valid()
    }

    /** A viewer created for `topic`, not yet committed to the page. */
    constructor (topic: Topic, db: Database, exec: (Command, string) -> string, diagrams: string -> nat)
      requires db.Valid()
      ensures Valid() && this.topic == topic && this.db == db && this.exec == exec && this.diagrams == diagrams
      ensures body == None && renderedFor == None && saves == [] && renderPasses == 0
    {
      this.topic := topic;
      this.db := db;
      this.exec := exec;
      this.diagrams := diagrams;
      body := None;
      renderedFor := None;
      saves := [];
      renderPasses := 0;
    }

    /**
     * A commit with the topic prop `t`. The body shows `t.content` when it
     * is first mounted or when the content changed; the diagram effect runs
     * when `t.content` differs from the content it last ran for, and calls
     * the renderer only when the body holds at least one diagram node.
     */
    method Render(t: Topic) returns (rendered: bool)
      modifies this`topic, this`body, this`renderedFor, this`renderPasses
      ensures topic == t
      ensures body == (if old(body).None? || old(topic).content != t.content then Some(t.content) else old(body))
      ensures renderedFor == Some(t.content)
      ensures rendered <==> old(renderedFor) != Some(t.content) && diagrams(body.value) > 0
      ensures renderPasses == old(renderPasses) + (if rendered then 1 else 0)
    {
      if body.None? || topic.content != t.content {
        body := Some(t.content);
      }
      topic := t;
      rendered := false;
      if renderedFor != Some(t.content) {
        renderedFor := Some(t.content);
        if diagrams(body.value) > 0 {
          rendered := true;
          renderPasses := renderPasses + 1;
        }
      }
    }

    /** handleInput: with a mounted body, save the topic with the current body and `now`; otherwise do nothing. */
    method HandleInput(now: int)
      requires Valid()
      modifies db, this`saves
      ensures Valid()
      ensures old(body).None? ==> unchanged(db) && saves == old(saves)
      ensures old(body).Some? ==>
                && saves == old(saves) + [SavedRecord(topic, body.value, now)]
                && db.topics == old(db.topics)[topic.id := SavedRecord(topic, body.value, now)]
                && db.subjects == old(db.subjects)
    {
      if body.None? {
        return;
      }
      var record := SavedRecord(topic, body.value, now);
      db.SaveTopic(record);
      saves := saves + [record];
    }

    /** applyFormat: run the command on the body, then exactly one save attempt through handleInput. */
    method ApplyFormat(command: Command, now: int)
      requires Valid()
      modifies db, this`body, this`saves
      ensures Valid()
      ensures body == (if old(body).Some? then Some(exec(command, old(body).value)) else None)
      ensures old(body).None? ==> unchanged(db) && saves == old(saves)
      ensures old(body).Some? ==>
                && saves == old(saves) + [SavedRecord(topic, body.value, now)]
                && db.topics == old(db.topics)[topic.id := SavedRecord(topic, body.value, now)]
                && db.subjects == old(db.subjects)
    {
      if body.Some? {
        body := Some(exec(command, body.value));
      }
      HandleInput(now);
    }

    /** handleHighlight: a colour highlights the selection, a falsy value removes formatting. */
    method HandleHighlight(color: Option<string>, now: int)
      requires Valid()
      modifies db, this`body, this`saves
      ensures Valid()
      ensures body == (if old(body).Some? then Some(exec(HighlightCommand(color), old(body).value)) else None)
      ensures old(body).Some? ==>
                && saves == old(saves) + [SavedRecord(topic, body.value, now)]
                && db.topics == old(db.topics)[topic.id := SavedRecord(topic, body.value, now)]
                && db.subjects == old(db.subjects)
      ensures old(body).None? ==> unchanged(db) && saves == old(saves)
    {
      ApplyFormat(HighlightCommand(color), now);
    }

    /** handleFormat: the named command with no value. */
    method HandleFormat(kind: string, now: int)
      requires Valid()
      modifies db, this`body, this`saves
      ensures Valid()
      ensures body == (if old(body).Some? then Some(exec(Command(kind, None), old(body).value)) else None)
      ensures old(body).Some? ==>
                && saves == old(saves) + [SavedRecord(topic, body.value, now)]
                && db.topics == old(db.topics)[topic.id := SavedRecord(topic, body.value, now)]
                && db.subjects == old(db.subjects)
      ensures old(body).None? ==> unchanged(db) && saves == old(saves)
    {
      ApplyFormat(FormatCommand(kind), now);
    }
  }

  /** After an edit is saved, reading the topic back gives the edited body and keeps its identity. */
  method FormatThenReload(viewer: TopicViewer, kind: string, now: int) returns (r: Option<Topic>)
    requires viewer.Valid() && viewer.body.Some?
    modifies viewer.db, viewer`body, viewer`saves
    ensures viewer.Valid()
    ensures viewer.body.Some? && r.Some?
    ensures r.value.id == viewer.topic.id && r.value.content == viewer.body.value
    ensures r.value.subjectId == viewer.topic.subjectId && r.value.title == viewer.topic.title
    ensures viewer.db.subjects == old(viewer.db.subjects)
  {
    viewer.HandleFormat(kind, now);
    r := viewer.db.GetTopic(viewer.topic.id);
  }
}
