/**
 * The three storage files of the tutoring application (students, exams and materials),
 * each a JSON object from key to record. `load_all` reads a file as that object, treating a
 * missing or undecodable file as empty; `save` loads, overwrites one key and writes the whole
 * object back; `delete` loads and writes back only when the key is present.
 */
module Catalogue {
  import opened Wrappers
  import opened JsonData

  datatype JsonFile = Missing | Malformed | Parsed(entries: map<string, Json>)

  /** `load_all`: the stored object, or the empty one when the file is absent or corrupt. */
  function LoadAll(f: JsonFile): map<string, Json> {
    if f.Parsed? then f.entries else map[]
  }

  /** The file after `save`: the loaded object with `key` set to `value`. */
  function SaveEntry(f: JsonFile, key: string, value: Json): (g: JsonFile)
    ensures g.Parsed?
    ensures LoadAll(g).Keys == LoadAll(f).Keys + {key}
    ensures LoadAll(g)[key] == value
    ensures forall k :: k in LoadAll(f) && k != key ==> LoadAll(g)[k] == LoadAll(f)[k]
  {
    Parsed(LoadAll(f)[key := value])
  }

  /** The file after `delete`: rewritten without `key` when present, otherwise untouched. */
  function DeleteEntry(f: JsonFile, key: string): (g: JsonFile)
    ensures key !in LoadAll(g)
    ensures key in LoadAll(f) ==> LoadAll(g).Keys == LoadAll(f).Keys - {key}
    ensures forall k :: k in LoadAll(g) ==> k in LoadAll(f) && LoadAll(g)[k] == LoadAll(f)[k]
    ensures key !in LoadAll(f) ==> g == f
  {
    if key in LoadAll(f) then Parsed(LoadAll(f) - {key}) else f
  }

  /** The object key `json.dump` writes for a key that may be `None` (it writes `"null"`). */
  function JsonKey(k: Option<string>): string {
    if k.None? then "null" else k.value
  }

  /** Saving twice under the same key keeps only the second value. */
  lemma SaveOverwrites(f: JsonFile, key: string, v1: Json, v2: Json)
    ensures SaveEntry(SaveEntry(f, key, v1), key, v2) == SaveEntry(f, key, v2)
  {
    assert LoadAll(SaveEntry(f, key, v1))[key := v2] == LoadAll(f)[key := v2];
  }

  /** Deleting what was just saved leaves the other entries as they were before the save. */
  lemma DeleteAfterSave(f: JsonFile, key: string, v: Json)
    ensures LoadAll(DeleteEntry(SaveEntry(f, key, v), key)) == LoadAll(f) - {key}
  {
  }

  /** The three storage files, which the entities' `save`/`delete` rewrite in place. */
  class Store {
    var students: JsonFile
    var exams: JsonFile
    var materials: JsonFile

    constructor(students: JsonFile, exams: JsonFile, materials: JsonFile)
      ensures this.students == students && this.exams == exams && this.materials == materials
    {
      this.students := students;
      this.exams := exams;
      this.materials := materials;
    }
  }
}
