/**
 * The topic list and the topic editor (`TopicManager`).  Older saved topics
 * are bare strings; newer ones are records with an id.  Every operation
 * builds a new list (or a new editor form) from the old one.
 *
 * `Date.now()` is passed in as `now`.
 */
module Topics {
  import opened Wrappers
  import opened Strings

  /** A topic id: `Date.now()` gives a number, defaults and migrated strings a string; `===` never equates the two. */
  datatype TopicId = Num(n: nat) | Text(s: string)

  datatype TopicRecord = TopicRecord(
    id: Option<TopicId>,
    title: string,
    description: string,
    scope: string,
    instructions: seq<string>,
    actions: seq<string>,
    selected: Option<bool>)

  datatype Topic = Legacy(name: string) | Record(record: TopicRecord)

  /** The id the list shows for a topic and passes to the handlers: a bare string is its own id. */
  function IdOf(t: Topic): Option<TopicId> {
    match t
    case Legacy(s) => Some(Text(s))
    case Record(r) => r.id
  }

  /** The title the list shows, and the one merging compares. */
  function TitleOf(t: Topic): string {
    match t
    case Legacy(s) => s
    case Record(r) => r.title
  }

  /** The checkbox of the list: a bare string, and a record whose `selected` is not `false`, show as selected. */
  predicate IsSelected(t: Topic) {
    match t
    case Legacy(_) => true
    case Record(r) => r.selected != Some(false)
  }

  /** JavaScript truthiness of an id: missing, `0` and `''` are false. */
  predicate Truthy(id: Option<TopicId>) {
    id.Some? && id.value != Num(0) && id.value != Text("")
  }

  // ----- the editor form -----

  /** The editor's state: the topic being edited, whether the form is open, and the two text inputs. */
  datatype Form = Form(current: TopicRecord, isEditing: bool, instructionInput: string, actionInput: string)

  const BlankTopic: TopicRecord := TopicRecord(None, "", "", "", [], [], None)

  /** `resetForm()`. */
  const ClearedForm: Form := Form(BlankTopic, false, "", "")

  /**
   * `handleEdit(topic)`: the form opens on the topic, keeping its two text
   * inputs; a record is edited as it is, and a bare string is migrated to an
   * empty record of that title with the new numeric id `now`.
   */
  function HandleEdit(form: Form, topic: Topic, now: nat): (r: Form)
    ensures r.isEditing && r.instructionInput == form.instructionInput && r.actionInput == form.actionInput
    ensures r.current.title == TitleOf(topic)
    ensures topic.Record? ==> r.current == topic.record
    ensures topic.Legacy? ==> r.current == TopicRecord(Some(Num(now)), topic.name, "", "", [], [], None)
  {
    match topic
    case Legacy(s) => form.(current := TopicRecord(Some(Num(now)), s, "", "", [], [], None), isEditing := true)
    case Record(r) => form.(current := r, isEditing := true)
  }

  /** `[...list, input.trim()]` when the input is not blank. */
  function AppendTrimmed(list: seq<string>, input: string): seq<string> {
    if Trim(input) == [] then list else list + [Trim(input)]
  }

  /** `list.filter((_, i) => i !== index)`, walking the list with `k` the index of its first element. */
  function DropIndex(list: seq<string>, index: int, k: nat): (r: seq<string>)
    ensures |r| <= |list|
    decreases |list|
  {
    if list == [] then [] else (if k == index then [] else [list[0]]) + DropIndex(list[1..], index, k + 1)
  }

  /** The positional filter drops exactly the element at `index`, when there is one, and keeps the order of the rest. */
  lemma {:induction false} DropIndexSlices(list: seq<string>, index: int, k: nat)
    ensures DropIndex(list, index, k)
         == if k <= index < k + |list| then list[..index - k] + list[index - k + 1..] else list
    decreases |list|
  {
    if list != [] {
      DropIndexSlices(list[1..], index, k + 1);
      if k == index {
        assert list[..0] + list[1..] == list[1..];
      } else if k < index < k + |list| {
        var j := index - k;
        var tail := list[1..];
        assert DropIndex(list, index, k) == [list[0]] + (tail[..j - 1] + tail[j..]);
        assert list[..j] == [list[0]] + tail[..j - 1];
        assert list[j + 1..] == tail[j..];
      } else {
        assert list == [list[0]] + list[1..];
      }
    }
  }

  /** `addInstruction()`: the instructions only grow, by at most one, and keep the old ones in front. */
  function AddInstruction(form: Form): (r: Form)
    ensures r.current.(instructions := form.current.instructions) == form.current && r.isEditing == form.isEditing
    ensures r.current.actions == form.current.actions && r.actionInput == form.actionInput
    ensures r.current.title == form.current.title && r.current.id == form.current.id
    ensures form.current.instructions <= r.current.instructions
    ensures |r.current.instructions| <= |form.current.instructions| + 1
  {
    if Trim(form.instructionInput) == [] then form
    else form.(current := form.current.(instructions := AppendTrimmed(form.current.instructions, form.instructionInput)),
               instructionInput := "")
  }

  /** `removeInstruction(index)`: the instructions only shrink, and everything else is kept. */
  function RemoveInstruction(form: Form, index: int): (r: Form)
    ensures r.current.(instructions := form.current.instructions) == form.current && r.isEditing == form.isEditing
    ensures r.instructionInput == form.instructionInput
    ensures r.current.actions == form.current.actions && r.actionInput == form.actionInput
    ensures r.current.title == form.current.title && r.current.id == form.current.id
    ensures |r.current.instructions| <= |form.current.instructions|
  {
    form.(current := form.current.(instructions := DropIndex(form.current.instructions, index, 0)))
  }

  /** `addAction()`: the actions only grow, by at most one, and keep the old ones in front. */
  function AddAction(form: Form): (r: Form)
    ensures r.current.(actions := form.current.actions) == form.current && r.isEditing == form.isEditing
    ensures r.current.instructions == form.current.instructions && r.instructionInput == form.instructionInput
    ensures r.current.title == form.current.title && r.current.id == form.current.id
    ensures form.current.actions <= r.current.actions
    ensures |r.current.actions| <= |form.current.actions| + 1
  {
    if Trim(form.actionInput) == [] then form
    else form.(current := form.current.(actions := AppendTrimmed(form.current.actions, form.actionInput)), actionInput := "")
  }

  /** `removeAction(index)`: the actions only shrink, and everything else is kept. */
  function RemoveAction(form: Form, index: int): (r: Form)
    ensures r.current.(actions := form.current.actions) == form.current && r.isEditing == form.isEditing
    ensures r.actionInput == form.actionInput
    ensures r.current.instructions == form.current.instructions && r.instructionInput == form.instructionInput
    ensures r.current.title == form.current.title && r.current.id == form.current.id
    ensures |r.current.actions| <= |form.current.actions|
  {
    form.(current := form.current.(actions := DropIndex(form.current.actions, index, 0)))
  }

  /**
   * Adding an instruction appends the trimmed input and clears it when it
   * is not blank, and changes nothing otherwise; the actions are never touched.
   */
  lemma AddInstructionEffect(form: Form)
    ensures var r := AddInstruction(form);
      r.current.actions == form.current.actions && r.actionInput == form.actionInput
      && (IsBlank(form.instructionInput) ==> r == form)
      && (!IsBlank(form.instructionInput) ==>
            r.current.instructions == form.current.instructions + [Trim(form.instructionInput)]
            && r.instructionInput == ""
            && Trim(form.instructionInput) != [])
  {
    TrimBlank(form.instructionInput);
  }

  /** The same for actions. */
  lemma AddActionEffect(form: Form)
    ensures var r := AddAction(form);
      r.current.instructions == form.current.instructions && r.instructionInput == form.instructionInput
      && (IsBlank(form.actionInput) ==> r == form)
      && (!IsBlank(form.actionInput) ==>
            r.current.actions == form.current.actions + [Trim(form.actionInput)]
            && r.actionInput == ""
            && Trim(form.actionInput) != [])
  {
    TrimBlank(form.actionInput);
  }

  /** Removing the instruction at `index` drops exactly that one and keeps the others in order; the actions stay. */
  lemma RemoveInstructionEffect(form: Form, index: int)
    ensures var before := form.current.instructions;
      var r := RemoveInstruction(form, index);
      r.current.actions == form.current.actions
      && (0 <= index < |before| ==> r.current.instructions == before[..index] + before[index + 1..])
      && (!(0 <= index < |before|) ==> r == form)
  {
    DropIndexSlices(form.current.instructions, index, 0);
  }

  /** Removing the action at `index` drops exactly that one and keeps the others in order; the instructions stay. */
  lemma RemoveActionEffect(form: Form, index: int)
    ensures var before := form.current.actions;
      var r := RemoveAction(form, index);
      r.current.instructions == form.current.instructions
      && (0 <= index < |before| ==> r.current.actions == before[..index] + before[index + 1..])
      && (!(0 <= index < |before|) ==> r == form)
  {
    DropIndexSlices(form.current.actions, index, 0);
  }

  // ----- saving -----

  /** `topics.map(t => t.id === id ? newTopic : t)`: a bare string has no `.id` and is never replaced. */
  function ReplaceById(topics: seq<Topic>, id: Option<TopicId>, newTopic: TopicRecord): (r: seq<Topic>)
    ensures |r| == |topics|
  {
    if topics == [] then []
    else
      var t := topics[0];
      [if t.Record? && t.record.id == id then Record(newTopic) else t] + ReplaceById(topics[1..], id, newTopic)
  }

  /** What a save leaves behind: the new topic list and the form. */
  datatype Saved = Saved(topics: seq<Topic>, form: Form)

  /**
   * `handleSave()`: nothing happens for a blank title; otherwise the topic
   * gets its trimmed title and, if it has none, the id `now`; a topic with
   * an id replaces the topics that carry that id, one without is appended;
   * then the form is cleared.
   */
  function HandleSave(topics: seq<Topic>, form: Form, now: nat): (r: Saved)
    ensures r.form == form <==> IsBlank(form.current.title)
    ensures IsBlank(form.current.title) ==> r.topics == topics
    ensures !IsBlank(form.current.title) ==> r.form == ClearedForm
    ensures |r.topics| == if IsBlank(form.current.title) || Truthy(form.current.id) then |topics| else |topics| + 1
    ensures !IsBlank(form.current.title) && !Truthy(form.current.id) ==> topics <= r.topics
  {
    var current := form.current;
    TrimBlank(current.title);
    if Trim(current.title) == [] then Saved(topics, form)
    else
      var newTopic := current.(id := if Truthy(current.id) then current.id else Some(Num(now)), title := Trim(current.title));
      if Truthy(current.id) then Saved(ReplaceById(topics, current.id, newTopic), ClearedForm)
      else Saved(topics + [Record(newTopic)], ClearedForm)
  }

  /** Saving with a title that is blank changes neither the list nor the form. */
  lemma SaveBlankTitle(topics: seq<Topic>, form: Form, now: nat)
    requires IsBlank(form.current.title)
    ensures HandleSave(topics, form, now) == Saved(topics, form)
  {
    TrimBlank(form.current.title);
  }

  /** Saving a topic without an id appends it, with its trimmed title and the id `now`, and clears the form. */
  lemma SaveNewTopic(topics: seq<Topic>, form: Form, now: nat)
    requires !IsBlank(form.current.title) && !Truthy(form.current.id)
    ensures var r := HandleSave(topics, form, now);
      |r.topics| == |topics| + 1
      && r.topics[..|topics|] == topics
      && r.topics[|topics|] == Record(form.current.(id := Some(Num(now)), title := Trim(form.current.title)))
      && Trim(form.current.title) != []
      && r.form == ClearedForm
  {
    TrimBlank(form.current.title);
    var r := HandleSave(topics, form, now);
    assert r.topics[..|topics|] == topics;
  }

  /**
   * Saving a topic that has an id replaces, in place, every topic whose
   * record carries that id by the saved topic with its title trimmed, keeps
   * every other entry, and clears the form.
   */
  lemma SaveExistingTopic(topics: seq<Topic>, form: Form, now: nat)
    requires !IsBlank(form.current.title) && Truthy(form.current.id)
    ensures var r := HandleSave(topics, form, now);
      var saved := form.current.(title := Trim(form.current.title));
      r.form == ClearedForm
      && |r.topics| == |topics|
      && forall i :: 0 <= i < |topics| ==>
           r.topics[i] == if topics[i].Record? && topics[i].record.id == form.current.id then Record(saved) else topics[i]
  {
    TrimBlank(form.current.title);
    ReplaceByIdEffect(topics, form.current.id, form.current.(title := Trim(form.current.title)));
  }

  /**
   * Saving a topic with an id keeps the length, puts the saved topic at
   * every position whose record has that id, and keeps every other entry.
   */
  lemma {:induction false} ReplaceByIdEffect(topics: seq<Topic>, id: Option<TopicId>, newTopic: TopicRecord)
    ensures var r := ReplaceById(topics, id, newTopic);
      forall i :: 0 <= i < |topics| ==>
        r[i] == if topics[i].Record? && topics[i].record.id == id then Record(newTopic) else topics[i]
  {
    if topics != [] {
      ReplaceByIdEffect(topics[1..], id, newTopic);
      var r := ReplaceById(topics, id, newTopic);
      forall i | 1 <= i < |topics|
        ensures r[i] == if topics[i].Record? && topics[i].record.id == id then Record(newTopic) else topics[i]
      {
        assert r[i] == ReplaceById(topics[1..], id, newTopic)[i - 1];
        assert topics[i] == topics[1..][i - 1];
      }
    }
  }

  /** When no record carries the id, replacing by it changes nothing. */
  lemma ReplaceByMissingId(topics: seq<Topic>, id: Option<TopicId>, newTopic: TopicRecord)
    requires forall i :: 0 <= i < |topics| ==> !(topics[i].Record? && topics[i].record.id == id)
    ensures ReplaceById(topics, id, newTopic) == topics
  {
    ReplaceByIdEffect(topics, id, newTopic);
  }

  /**
   * Editing a bare-string topic and saving it loses the edit: the migrated
   * topic's new numeric id is carried by no record of the list, so the
   * list comes back unchanged (only the form is cleared).
   */
  lemma EditLegacyThenSave(topics: seq<Topic>, form: Form, name: string, now: nat)
    requires now != 0
    requires forall i :: 0 <= i < |topics| ==> !(topics[i].Record? && topics[i].record.id == Some(Num(now)))
    ensures HandleSave(topics, HandleEdit(form, Legacy(name), now), now).topics == topics
  {
    var edited := HandleEdit(form, Legacy(name), now);
    if Trim(name) != [] {
      var newTopic := edited.current.(title := Trim(name));
      ReplaceByMissingId(topics, Some(Num(now)), newTopic);
    }
  }

  // ----- merging the default topics -----

  const PresentationDesign: TopicRecord := TopicRecord(
    Some(Text("topic_presentation_design")),
    "Presentation Design",
    "Guidelines for creating visually appealing and effective slides.",
    "Applies to all slide deck generation tasks.",
    ["Keep text minimal (max 6 bullets per slide).",
     "Use high-contrast colors.",
     "Ensure fonts are legible (min 24pt).",
     "Include visual descriptions for every slide."],
    ["GenerateImage", "FormatSlide"],
    None)

  const AcademicResearch: TopicRecord := TopicRecord(
    Some(Text("topic_academic_research")),
    "Academic Research",
    "Standards for conducting and citing academic research.",
    "Applies to research summaries and literature reviews.",
    ["Prioritize peer-reviewed sources.",
     "Use neutral, objective tone.",
     "Cite all claims using APA format.",
     "Distinguish between consensus and minority views."],
    ["SearchScholar", "CiteSource"],
    None)

  const Pedagogy: TopicRecord := TopicRecord(
    Some(Text("topic_pedagogy")),
    "Pedagogy",
    "Instructional strategies for effective teaching.",
    "Applies to tutoring and educational content.",
    ["Use the Socratic method (ask questions).",
     "Scaffold learning from simple to complex.",
     "Provide positive reinforcement.",
     "Check for understanding frequently."],
    ["CreateQuiz", "ExplainConcept"],
    None)

  /** `DEFAULT_TOPICS`, in declared order. */
  const DefaultTopics: seq<Topic> := [Record(PresentationDesign), Record(AcademicResearch), Record(Pedagogy)]

  /** `new Set(topics.map(...title))`. */
  function Titles(topics: seq<Topic>): (ts: seq<string>)
    ensures |ts| == |topics|
  {
    seq(|topics|, i requires 0 <= i < |topics| => TitleOf(topics[i]))
  }

  /** `defaults.filter(t => !existingTitles.has(t.title))`. */
  function NewDefaults(defaults: seq<Topic>, titles: seq<string>): (r: seq<Topic>)
    ensures |r| <= |defaults|
  {
    if defaults == [] then []
    else (if TitleOf(defaults[0]) in titles then [] else [defaults[0]]) + NewDefaults(defaults[1..], titles)
  }

  /** `loadDefaults()`: the defaults whose title is new are appended; when there are none, the list stays. */
  function LoadDefaults(topics: seq<Topic>): (r: seq<Topic>)
    ensures topics <= r && |r| <= |topics| + |DefaultTopics|
  {
    var added := NewDefaults(DefaultTopics, Titles(topics));
    if added == [] then topics else topics + added
  }

  /** The filter keeps exactly the defaults whose title is not taken, in their order. */
  lemma {:induction false} NewDefaultsMembers(defaults: seq<Topic>, titles: seq<string>)
    ensures forall t :: t in NewDefaults(defaults, titles) <==> t in defaults && TitleOf(t) !in titles
  {
    if defaults != [] {
      NewDefaultsMembers(defaults[1..], titles);
      assert forall t :: t in defaults <==> t == defaults[0] || t in defaults[1..];
    }
  }

  /** When every title is taken, the filter keeps nothing. */
  lemma {:induction false} NewDefaultsNone(defaults: seq<Topic>, titles: seq<string>)
    requires forall d :: d in defaults ==> TitleOf(d) in titles
    ensures NewDefaults(defaults, titles) == []
  {
    if defaults != [] {
      assert defaults[0] in defaults;
      NewDefaultsNone(defaults[1..], titles);
    }
  }

  /** The filter works piece by piece, so the kept defaults keep their declared order and occur once each. */
  lemma {:induction false} NewDefaultsConcat(a: seq<Topic>, b: seq<Topic>, titles: seq<string>)
    ensures NewDefaults(a + b, titles) == NewDefaults(a, titles) + NewDefaults(b, titles)
  {
    if a == [] {
      assert a + b == b;
    } else {
      var ab := a + b;
      assert ab[0] == a[0] && ab[1..] == a[1..] + b;
      NewDefaultsConcat(a[1..], b, titles);
    }
  }

  lemma {:induction false} TitlesAppend(a: seq<Topic>, b: seq<Topic>)
    ensures Titles(a + b) == Titles(a) + Titles(b)
  {
  }

  /**
   * Merging keeps the list as a prefix, appends only defaults whose title
   * was not already there, and afterwards every default title is present.
   */
  lemma LoadDefaultsEffect(topics: seq<Topic>)
    ensures var r := LoadDefaults(topics);
      r[..|topics|] == topics
      && (forall t :: t in r[|topics|..] <==> t in DefaultTopics && TitleOf(t) !in Titles(topics))
      && (forall d :: d in DefaultTopics ==> TitleOf(d) in Titles(r))
  {
    var added := NewDefaults(DefaultTopics, Titles(topics));
    NewDefaultsMembers(DefaultTopics, Titles(topics));
    var r := LoadDefaults(topics);
    assert r == topics + added;
    assert r[..|topics|] == topics && r[|topics|..] == added;
    TitlesAppend(topics, added);
    forall d | d in DefaultTopics ensures TitleOf(d) in Titles(r) {
      if TitleOf(d) !in Titles(topics) {
        assert d in added;
        var k :| 0 <= k < |added| && added[k] == d;
        assert Titles(added)[k] == TitleOf(d);
      }
    }
  }

  /** A default topic survives the filter on its own exactly when its title is new. */
  lemma NewDefaultsSingle(d: Topic, titles: seq<string>)
    ensures NewDefaults([d], titles) == if TitleOf(d) in titles then [] else [d]
  {
    assert [d][1..] == [];
  }

  /**
   * The appended defaults are exactly the ones with a new title, each once,
   * in the declared order.
   */
  lemma LoadDefaultsInOrder(topics: seq<Topic>)
    ensures LoadDefaults(topics)[|topics|..]
         == (if PresentationDesign.title in Titles(topics) then [] else [Record(PresentationDesign)])
          + (if AcademicResearch.title in Titles(topics) then [] else [Record(AcademicResearch)])
          + (if Pedagogy.title in Titles(topics) then [] else [Record(Pedagogy)])
  {
    var ts := Titles(topics);
    var p, a, g := Record(PresentationDesign), Record(AcademicResearch), Record(Pedagogy);
    assert DefaultTopics == [p] + ([a] + [g]);
    NewDefaultsConcat([p], [a] + [g], ts);
    NewDefaultsConcat([a], [g], ts);
    NewDefaultsSingle(p, ts);
    NewDefaultsSingle(a, ts);
    NewDefaultsSingle(g, ts);
    var added := NewDefaults(DefaultTopics, ts);
    assert LoadDefaults(topics) == topics + added;
    assert (topics + added)[|topics|..] == added;
  }

  /** Merging the defaults a second time changes nothing. */
  lemma LoadDefaultsIdempotent(topics: seq<Topic>)
    ensures LoadDefaults(LoadDefaults(topics)) == LoadDefaults(topics)
  {
    var r := LoadDefaults(topics);
    LoadDefaultsEffect(topics);
    NewDefaultsNone(DefaultTopics, Titles(r));
  }

  // ----- removing and selecting -----

  /** `handleRemove(id)`: drops every topic shown with that id. */
  function HandleRemove(topics: seq<Topic>, id: Option<TopicId>): (r: seq<Topic>)
    ensures |r| <= |topics|
    ensures forall i :: 0 <= i < |r| ==> IdOf(r[i]) != id
  {
    if topics == [] then []
    else (if IdOf(topics[0]) == id then [] else [topics[0]]) + HandleRemove(topics[1..], id)
  }

  /** Removing leaves no topic with that id and keeps every other topic, as often as it occurred. */
  lemma {:induction false} HandleRemoveEffect(topics: seq<Topic>, id: Option<TopicId>)
    ensures forall t :: t in HandleRemove(topics, id) ==> IdOf(t) != id
    ensures forall t :: IdOf(t) != id ==> multiset(HandleRemove(topics, id))[t] == multiset(topics)[t]
  {
    if topics != [] {
      HandleRemoveEffect(topics[1..], id);
      assert topics == [topics[0]] + topics[1..];
    }
  }

  /** Removing works piece by piece, so the remaining topics keep their order. */
  lemma {:induction false} HandleRemoveConcat(a: seq<Topic>, b: seq<Topic>, id: Option<TopicId>)
    ensures HandleRemove(a + b, id) == HandleRemove(a, id) + HandleRemove(b, id)
  {
    if a == [] {
      assert a + b == b;
    } else {
      var ab := a + b;
      assert ab[0] == a[0] && ab[1..] == a[1..] + b;
      HandleRemoveConcat(a[1..], b, id);
      calc {
        HandleRemove(ab, id);
        (if IdOf(a[0]) == id then [] else [a[0]]) + HandleRemove(a[1..] + b, id);
        (if IdOf(a[0]) == id then [] else [a[0]]) + (HandleRemove(a[1..], id) + HandleRemove(b, id));
      }
    }
  }

  /**
   * The topic a toggle makes of a matching one, as written: a bare string
   * becomes an unselected record of that title, and a record's `selected`
   * becomes `!t.selected`, which reads a missing flag as false.
   */
  function SourceToggled(t: Topic): (r: Topic)
    ensures r.Record? && r.record.selected.Some?
    ensures IdOf(r) == IdOf(t) && TitleOf(r) == TitleOf(t)
    ensures t.Record? ==> r.record.(selected := t.record.selected) == t.record
    ensures t.Legacy? ==> r == Record(TopicRecord(Some(Text(t.name)), t.name, "", "", [], [], Some(false)))
  {
    match t
    case Legacy(s) => Record(TopicRecord(Some(Text(s)), s, "", "", [], [], Some(false)))
    case Record(r) => Record(r.(selected := Some(!(r.selected == Some(true)))))
  }

  /**
   * The list shows a record without `selected` as selected, but the toggle
   * as written sets it to selected: the first toggle of such a topic
   * changes nothing that is shown.
   */
  lemma SourceToggleIgnoresUnset(r: TopicRecord)
    requires r.selected.None?
    ensures IsSelected(Record(r)) && IsSelected(SourceToggled(Record(r)))
  {
  }

  /** The toggle as intended: the new flag is the negation of the selection the list shows. */
  function Toggled(t: Topic): (r: Topic)
    ensures r.Record? && r.record.selected.Some?
    ensures IdOf(r) == IdOf(t) && TitleOf(r) == TitleOf(t)
    ensures IsSelected(r) == !IsSelected(t)
    ensures t.Record? ==> r.record.(selected := t.record.selected) == t.record
    ensures t.Legacy? ==> r == Record(TopicRecord(Some(Text(t.name)), t.name, "", "", [], [], Some(false)))
  {
    match t
    case Legacy(s) => Record(TopicRecord(Some(Text(s)), s, "", "", [], [], Some(false)))
    case Record(r) => Record(r.(selected := Some(!IsSelected(t))))
  }

  /** The two toggles differ only on a record without `selected`. */
  lemma ToggledAgreesWithSource(t: Topic)
    ensures Toggled(t) == SourceToggled(t) <==> !(t.Record? && t.record.selected.None?)
  {
    match t
    case Legacy(_) =>
    case Record(r) =>
      match r.selected
      case None =>
        assert Toggled(t).record.selected == Some(false);
      case Some(b) =>
        assert Toggled(t).record.selected == Some(!b);
  }

  /** `handleToggleSelection(id)`. */
  function HandleToggleSelection(topics: seq<Topic>, id: Option<TopicId>): (r: seq<Topic>)
    ensures |r| == |topics|
  {
    if topics == [] then []
    else [if IdOf(topics[0]) == id then Toggled(topics[0]) else topics[0]] + HandleToggleSelection(topics[1..], id)
  }

  /** A toggled topic keeps its id and title, its displayed selection flips, and a second toggle restores it. */
  lemma ToggledEffect(t: Topic)
    ensures IdOf(Toggled(t)) == IdOf(t) && TitleOf(Toggled(t)) == TitleOf(t)
    ensures IsSelected(Toggled(t)) == !IsSelected(t)
    ensures IsSelected(Toggled(Toggled(t))) == IsSelected(t)
  {
  }

  /**
   * A toggle keeps the length, every id and every title, leaves topics with
   * another id as they were, and flips the displayed selection of every
   * matching topic.
   */
  lemma {:induction false} ToggleEffect(topics: seq<Topic>, id: Option<TopicId>)
    ensures var r := HandleToggleSelection(topics, id);
      forall i :: 0 <= i < |topics| ==>
        IdOf(r[i]) == IdOf(topics[i]) && TitleOf(r[i]) == TitleOf(topics[i])
        && (IdOf(topics[i]) != id ==> r[i] == topics[i])
        && (IdOf(topics[i]) == id ==> r[i] == Toggled(topics[i]) && IsSelected(r[i]) == !IsSelected(topics[i]))
  {
    if topics != [] {
      ToggleEffect(topics[1..], id);
      ToggledEffect(topics[0]);
      var r := HandleToggleSelection(topics, id);
      forall i | 0 <= i < |topics|
        ensures IdOf(r[i]) == IdOf(topics[i]) && TitleOf(r[i]) == TitleOf(topics[i])
        ensures IdOf(topics[i]) != id ==> r[i] == topics[i]
        ensures IdOf(topics[i]) == id ==> r[i] == Toggled(topics[i]) && IsSelected(r[i]) == !IsSelected(topics[i])
      {
        if i > 0 {
          assert r[i] == HandleToggleSelection(topics[1..], id)[i - 1];
          assert topics[i] == topics[1..][i - 1];
        }
      }
    }
  }
}
