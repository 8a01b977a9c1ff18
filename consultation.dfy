/**
 * The literature recommendation of `LR1/entities/additional_classes.py` on values: the
 * materials catalogue is looked up by the consultation topic, and the book found is appended
 * to the student's materials unless a book with the same topic, title and author is there.
 */
module Literature {
  import opened Wrappers
  import opened JsonData
  import opened Materials

  /** What the catalogue lookup gives: no entry, an entry the title and author cannot be read from, or both. */
  datatype Lookup = NotFound | Unreadable | Found(title: Option<string>, author: Option<string>)

  /**
   * `materials[topic]['title']` and `['author']`: a missing topic is not found; an entry that
   * is not an object, lacks either key or holds a value that is neither a string nor `null`
   * raises, which `recommend_literature` catches.
   */
  function LookupLiterature(catalogue: map<string, Json>, topic: string): (l: Lookup)
    ensures topic !in catalogue <==> l.NotFound?
    ensures l.Found? ==>
              catalogue[topic].Obj? && "title" in catalogue[topic].fields && "author" in catalogue[topic].fields
              && catalogue[topic].fields["title"] == OptStr(l.title)
              && catalogue[topic].fields["author"] == OptStr(l.author)
  {
    if topic !in catalogue then NotFound
    else
      var entry := catalogue[topic];
      if !entry.Obj? || "title" !in entry.fields || "author" !in entry.fields then Unreadable
      else
        var title, author := ReadOptStr(entry.fields["title"]), ReadOptStr(entry.fields["author"]);
        if title.None? || author.None? then Unreadable else Found(title.value, author.value)
  }

  /** The material recommended for a topic: no subject, the topic, and the entry's title and author. */
  function Recommended(topic: string, title: Option<string>, author: Option<string>): MaterialData {
    MaterialData(None, Some(topic), title, author)
  }

  /** The duplicate test of `recommend_literature`: same topic, same title and same author. */
  predicate SameBook(a: MaterialData, b: MaterialData) {
    a.topic == b.topic && a.title == b.title && a.author == b.author
  }

  predicate HasBook(ms: seq<MaterialData>, m: MaterialData) {
    exists i :: 0 <= i < |ms| && SameBook(ms[i], m)
  }

  /** The student's materials afterwards and whether the student was saved. */
  datatype Recommendation = Recommendation(materials: Option<seq<MaterialData>>, saved: bool)

  /**
   * `recommend_literature` on the student's materials: nothing happens unless the topic's
   * entry is found; then absent materials become the empty list, and the recommended book is
   * appended, and the student saved, unless the list already holds the same book.
   */
  function Recommend(ms: Option<seq<MaterialData>>, topic: string, look: Lookup): (r: Recommendation)
    ensures !look.Found? ==> r == Recommendation(ms, false)
    ensures look.Found? ==> r.materials.Some? && HasBook(r.materials.value, Recommended(topic, look.title, look.author))
    ensures !r.saved ==> r.materials == ms
    ensures r.saved <==>
              look.Found? && (ms.None? || !HasBook(ms.value, Recommended(topic, look.title, look.author)))
    ensures r.saved ==>
              r.materials.value == (if ms.None? then [] else ms.value) + [Recommended(topic, look.title, look.author)]
  {
    if !look.Found? then Recommendation(ms, false)
    else
      var book := Recommended(topic, look.title, look.author);
      var current := if ms.None? then [] else ms.value;
      if HasBook(current, book) then Recommendation(Some(current), false)
      else
        assert SameBook((current + [book])[|current|], book);
        Recommendation(Some(current + [book]), true)
  }

  /** A second consultation on the same topic changes nothing and saves nothing. */
  lemma RecommendTwice(ms: Option<seq<MaterialData>>, topic: string, look: Lookup)
    ensures var once := Recommend(ms, topic, look);
            Recommend(once.materials, topic, look) == Recommendation(once.materials, false)
  {
  }

  /** The consultation test: a found topic on a student without materials leaves exactly that one book. */
  lemma RecommendToNewStudent(topic: string, title: string, author: string)
    ensures Recommend(None, topic, Found(Some(title), Some(author))) ==
            Recommendation(Some([MaterialData(None, Some(topic), Some(title), Some(author))]), true)
  {
    var book := Recommended(topic, Some(title), Some(author));
    assert [] + [book] == [book];
  }

  /** A topic missing from the catalogue, or a missing catalogue file, leaves absent materials absent. */
  lemma RecommendUnknownTopic(catalogue: map<string, Json>, topic: string, ms: Option<seq<MaterialData>>)
    requires topic !in catalogue
    ensures Recommend(ms, topic, LookupLiterature(catalogue, topic)) == Recommendation(ms, false)
  {
  }
}

/**
 * `AdditionalClasses` (`LR1/entities/additional_classes.py`): a consultation of one student
 * on one topic, which recommends literature from the materials file.
 */
module Consultations {
  import opened Wrappers
  import opened JsonData
  import opened Catalogue
  import opened Materials
  import opened StudentRecords
  import opened Students
  import opened Literature

  class AdditionalClasses {
    const student: Student
    const topic: string

    constructor(student: Student, topic: string)
      ensures this.student == student && this.topic == topic
    {
      this.student := student;
      this.topic := topic;
    }

    /**
     * `recommend_literature`, as `Recommend` describes it: the student's materials become
     * the recommendation's, and the student is saved exactly when a book was appended.
     */
    method RecommendLiterature(store: Store)
      modifies student`materials, store`students
      ensures var r := Recommend(old(student.materials), topic, LookupLiterature(LoadAll(store.materials), topic));
              student.materials == r.materials &&
              store.students == (if r.saved then SaveEntry(old(store.students), JsonKey(student.id), StudentToJson(student.Data()))
                                 else old(store.students))
    {
      var look := LookupLiterature(LoadAll(store.materials), topic);
      if !look.Found? {
        return;
      }
      var book := Recommended(topic, look.title, look.author);
      if student.materials.None? {
        student.materials := Some([]);
      }
      if !HasBook(student.materials.value, book) {
        student.materials := Some(student.materials.value + [book]);
        student.Save(store);
      }
    }

    /** `conduct_consultation`: the recommendation, whose failures it never lets through. */
    method ConductConsultation(store: Store)
      modifies student`materials, store`students
      ensures var r := Recommend(old(student.materials), topic, LookupLiterature(LoadAll(store.materials), topic));
              student.materials == r.materials &&
              store.students == (if r.saved then SaveEntry(old(store.students), JsonKey(student.id), StudentToJson(student.Data()))
                                 else old(store.students))
    {
      RecommendLiterature(store);
    }
  }
}
