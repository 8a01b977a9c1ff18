/**
 * The roster application's student record (`LR2/model/student.py`) and the field maps the
 * dialogs and the XML reader hand to the model. A record is immutable: it has read-only
 * properties and no setters, so it is a datatype here.
 */
module Roster {

  /**
   * A value of a field map: the dialogs give strings, while the XML reader stores the three
   * numeric fields as integers.
   */
  datatype FieldValue = Str(s: string) | Int(n: int)

  /** A record as a map from field name ("FullName", "Course", ...) to value. */
  type FieldMap = map<string, FieldValue>

  /** `Student(full_name, course, group, total_works, completed_works, programming_language)`. */
  datatype Student = Student(
    fullName: string,
    course: int,
    group: string,
    totalWorks: int,
    completedWorks: int,
    programmingLanguage: string)

  /** The derived `not_completed_works` property. */
  function NotCompletedWorks(s: Student): int {
    s.totalWorks - s.completedWorks
  }
}
