/**
 * Study materials (`LR1/entities/educational_materials.py`): a subject, a topic, a title and an
 * author, stored in the materials file under the topic.
 */
module Materials {
  import opened Wrappers
  import opened Text
  import opened JsonData
  import opened Catalogue
  import opened Sequences

  /** The value an `EducationalMaterial` object holds; a fresh object has no subject. */
  datatype MaterialData = MaterialData(subject: Option<string>, topic: Option<string>,
                                       title: Option<string>, author: Option<string>)

  // ---------------------------------------------------------------------------
  // to_dict / from_dict

  function MaterialToJson(m: MaterialData): (j: Json)
    ensures j.Obj? && j.fields.Keys == {"subject", "topic", "title", "author"}
  {
    Obj(map["subject" := OptStr(m.subject), "topic" := OptStr(m.topic),
            "title" := OptStr(m.title), "author" := OptStr(m.author)])
  }

  /**
   * `EducationalMaterial.from_dict`: all four keys are subscripted, in the order topic,
   * subject, title, author, so the first one absent raises `KeyError`.
   */
  function MaterialFromJson(j: Json): (r: Result<MaterialData, DecodeError>)
    ensures j.Obj? && "topic" !in j.fields ==> r == Err(MissingKey("topic"))
    ensures j.Obj? && "topic" in j.fields && "subject" !in j.fields ==> r == Err(MissingKey("subject"))
    ensures (j.Obj? && "topic" in j.fields && "subject" in j.fields && "title" !in j.fields) ==>
              r == Err(MissingKey("title"))
    ensures (j.Obj? && "topic" in j.fields && "subject" in j.fields && "title" in j.fields
             && "author" !in j.fields) ==> r == Err(MissingKey("author"))
    ensures r.Ok? ==>
              (j.Obj? && {"subject", "topic", "title", "author"} <= j.fields.Keys
               && j.fields["subject"] == OptStr(r.value.subject) && j.fields["topic"] == OptStr(r.value.topic)
               && j.fields["title"] == OptStr(r.value.title) && j.fields["author"] == OptStr(r.value.author))
  {
    if !j.Obj? then Err(WrongType)
    else if "topic" !in j.fields then Err(MissingKey("topic"))
    else if "subject" !in j.fields then Err(MissingKey("subject"))
    else if "title" !in j.fields then Err(MissingKey("title"))
    else if "author" !in j.fields then Err(MissingKey("author"))
    else
      var topic, subject := ReadOptStr(j.fields["topic"]), ReadOptStr(j.fields["subject"]);
      var title, author := ReadOptStr(j.fields["title"]), ReadOptStr(j.fields["author"]);
      if topic.None? || subject.None? || title.None? || author.None? then Err(WrongType)
      else Ok(MaterialData(subject.value, topic.value, title.value, author.value))
  }

  /** `from_dict(to_dict(m))` has the same subject, topic, title and author. */
  lemma MaterialRoundTrip(m: MaterialData)
    ensures MaterialFromJson(MaterialToJson(m)) == Ok(m)
  {
    var j := MaterialToJson(m);
    assert ReadOptStr(j.fields["subject"]) == Some(m.subject);
    assert ReadOptStr(j.fields["topic"]) == Some(m.topic);
    assert ReadOptStr(j.fields["title"]) == Some(m.title);
    assert ReadOptStr(j.fields["author"]) == Some(m.author);
  }

  /** `EducationalMaterial.load`: `None` for an unknown topic or an entry that cannot be decoded. */
  function LoadMaterial(f: JsonFile, topic: string): (r: Option<MaterialData>)
    ensures topic !in LoadAll(f) ==> r.None?
    ensures topic in LoadAll(f) ==> (r.Some? <==> MaterialFromJson(LoadAll(f)[topic]).Ok?)
    ensures r.Some? ==> MaterialFromJson(LoadAll(f)[topic]) == Ok(r.value)
  {
    if topic !in LoadAll(f) then None
    else
      var d := MaterialFromJson(LoadAll(f)[topic]);
      if d.Ok? then Some(d.value) else None
  }

  /** A material that was saved under its topic loads back unchanged. */
  lemma LoadSavedMaterial(f: JsonFile, m: MaterialData)
    ensures LoadMaterial(SaveEntry(f, JsonKey(m.topic), MaterialToJson(m)), JsonKey(m.topic)) == Some(m)
  {
    MaterialRoundTrip(m);
  }

  /** A material that was deleted no longer loads. */
  lemma LoadDeletedMaterial(f: JsonFile, topic: string)
    ensures LoadMaterial(DeleteEntry(f, topic), topic) == None
  {
  }

  // ---------------------------------------------------------------------------
  // set_info

  /** The fields after the dialogue, whether it saved, and the unread input. */
  datatype Form = Form(data: MaterialData, saved: bool, rest: seq<string>)

  /**
   * The `set_info` dialogue: subject, topic, title and author are read in that order, each
   * stripped and assigned before being checked; a blank one ends it, and so does a topic
   * already in the catalogue (checked right after the topic). Running out of input raises,
   * which also ends it. Only a dialogue that passes all checks saves.
   */
  function MaterialDialogue(m: MaterialData, stored: set<string>, input: seq<string>): (f: Form)
    ensures IsSuffix(f.rest, input)
    ensures f.saved <==>
              (|input| >= 4 && Strip(input[0]) != "" && Strip(input[1]) != "" && Strip(input[1]) !in stored
               && Strip(input[2]) != "" && Strip(input[3]) != "")
    ensures f.saved ==>
              f.data == MaterialData(Some(Strip(input[0])), Some(Strip(input[1])), Some(Strip(input[2])), Some(Strip(input[3])))
    ensures input == [] ==> f.data == m
  {
    if |input| == 0 then Form(m, false, [])
    else
      var m1 := m.(subject := Some(Strip(input[0])));
      if Strip(input[0]) == "" then Form(m1, false, input[1..])
      else if |input| == 1 then Form(m1, false, [])
      else
        var m2 := m1.(topic := Some(Strip(input[1])));
        if Strip(input[1]) == "" || Strip(input[1]) in stored then Form(m2, false, input[2..])
        else if |input| == 2 then Form(m2, false, [])
        else
          var m3 := m2.(title := Some(Strip(input[2])));
          if Strip(input[2]) == "" then Form(m3, false, input[3..])
          else if |input| == 3 then Form(m3, false, [])
          else
            var m4 := m3.(author := Some(Strip(input[3])));
            Form(m4, Strip(input[3]) != "", input[4..])
  }

  /** A study material object, with the four fields `set_info` assigns. */
  class EducationalMaterial {
    var subject: Option<string>
    var topic: Option<string>
    var title: Option<string>
    var author: Option<string>

    constructor(topic: Option<string>, title: Option<string>, author: Option<string>)
      ensures Data() == MaterialData(None, topic, title, author)
    {
      subject := None;
      this.topic := topic;
      this.title := title;
      this.author := author;
    }

    function Data(): MaterialData
      reads this
    {
      MaterialData(subject, topic, title, author)
    }

    /** `save`: the materials file with this material's `to_dict` under its topic. */
    method Save(store: Store)
      modifies store`materials
      ensures store.materials == SaveEntry(old(store.materials), JsonKey(topic), MaterialToJson(Data()))
    {
      store.materials := SaveEntry(store.materials, JsonKey(topic), MaterialToJson(Data()));
    }

    /** `delete`: the topic's entry removed when present; a `None` topic is never a key of the file. */
    method Delete(store: Store)
      modifies store`materials
      ensures store.materials == (if topic.None? then old(store.materials) else DeleteEntry(old(store.materials), topic.value))
    {
      if topic.Some? {
        store.materials := DeleteEntry(store.materials, topic.value);
      }
    }

    /** `set_info`, step by step as `MaterialDialogue` describes it. */
    method SetInfo(store: Store, input: seq<string>) returns (rest: seq<string>)
      modifies this, store`materials
      ensures var f := MaterialDialogue(old(Data()), LoadAll(old(store.materials)).Keys, input);
              Data() == f.data && rest == f.rest &&
              store.materials == (if f.saved then SaveEntry(old(store.materials), Strip(input[1]), MaterialToJson(f.data))
                                  else old(store.materials))
    {
      if |input| == 0 {
        return [];
      }
      subject := Some(Strip(input[0]));
      if subject.value == "" {
        return input[1..];
      }
      if |input| == 1 {
        return [];
      }
      topic := Some(Strip(input[1]));
      if topic.value == "" || topic.value in LoadAll(store.materials) {
        return input[2..];
      }
      if |input| == 2 {
        return [];
      }
      title := Some(Strip(input[2]));
      if title.value == "" {
        return input[3..];
      }
      if |input| == 3 {
        return [];
      }
      author := Some(Strip(input[3]));
      if author.value == "" {
        return input[4..];
      }
      Save(store);
      return input[4..];
    }
  }
}
