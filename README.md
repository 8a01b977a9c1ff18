# Exam tutoring console and student roster, modelled in Dafny

The repository holds two small Python applications, and this project models the core of each.

**LR1** is a console tutor for exam retakes.
- Students, exams and study materials are records kept in three JSON files, keyed by student id, subject and topic.
- A student logs in by id and can:
  - review the errors of the last attempt;
  - ask for a consultation, which recommends a book on a topic;
  - study the recommended materials, which discards the topics they cover;
  - take a practice test;
  - retake the exam.
- A teacher adds and deletes students, exams and materials.
- The console is a five-state menu machine: Initial, Student, Teacher, Added and Deleted.

**LR2** is a roster of programming students.
- A record has a full name, course, group, total works, completed works and programming language.
- A validator checks the records before the model appends them to an in-memory repository. The model also normalises the full name.
- The repository is searched and deleted by criteria, paged, and summarised by the distinct values of a field.
- The roster is written to XML through DOM and read back through a SAX handler.
- A paginated view keeps the page state of the table.

How the model is built:
- The JSON files are `JsonFile` values, held in a `Store` object whose fields the entity methods reassign.
- Console input is a sequence of lines that each interactive method consumes. It returns what is left, and the empty sequence is end of input.
- The XML parser is replaced by the stream of events it delivers to the handler.
- Classes whose fields the source updates in place are Dafny classes. This covers:
  - Student, Exam, EducationalMaterial, AdditionalClasses and Console in LR1;
  - InMemoryStudentRepository, SaxHandler, StudentModel and PaginatedView in LR2.
- Each method's contract gives its new state and its unread input as functions or predicates of the inputs and of the old state. The console's effect on the files and on the student it holds is given per menu by `Consoles.Handled`. In the initial menu "1" holds the record `log_in` loads, or no student if loading fails, and leaves the student alone for an unknown id. In the added menu "1" holds the fresh enrolment. "0" drops the student in every menu except the initial one. Every other choice keeps the student held before. The properties the source promises are lemmas about those functions.
- The console's loop is specified by `Consoles.Trace`, a run of turns. Each turn records the line its choice was read from, the line its handling left the input at, and the snapshots of the console before and after it (`Consoles.TurnTaken`). `Consoles.Handled` relates each pair of snapshots and the input left.
- Every interactive reader returns a suffix of its input, so the console's loop can say which line each choice was read from.

## Model

| member | source | states |
|---|---|---|
| Attempts.MatchesUpTo | LR1/entities/previous_exam_attempt.py:40-45 | the number of matching answers among the first n questions is at most n |
| Attempts.Score | LR1/entities/previous_exam_attempt.py:35-45 | the score never exceeds the number of questions or of answers, and is 0 when either list is empty |
| Attempts.CalculateScore | LR1/entities/previous_exam_attempt.py:35-45 | the counting loop over the zipped questions and answers returns exactly `Score` |
| Attempts.MatchesUpToPrefix | LR1/entities/previous_exam_attempt.py:41 | the count over the first n pairs depends only on those pairs, so `zip` ignores what lies beyond them |
| Attempts.MatchesUpToStep | LR1/entities/previous_exam_attempt.py:41-43 | one more answer adds 1 to the count exactly when it equals that question's correct answer |
| Attempts.ScoreIgnoresExtra | LR1/entities/previous_exam_attempt.py:41 | extra questions or extra answers beyond the shorter list do not change the score |
| Attempts.MatchesUpToAll | LR1/entities/previous_exam_attempt.py:40-45 | the count reaches n exactly when each of the first n answers is right |
| Attempts.FullScore | LR1/entities/previous_exam_attempt.py:35-45 | with an answer for every question, the score is full exactly when every answer is right |
| Attempts.MatchesUpToNone | LR1/entities/previous_exam_attempt.py:40-45 | the count is 0 exactly when none of the first n answers is right |
| Attempts.ScoreOfTwoQuestionExam | LR1/tests/test_previous_exam_attempt.py:45-50 | a two-question exam answered "2", "2x" scores 2; answered "1", "1" it scores 0 |
| Attempts.AttemptToJson | LR1/entities/previous_exam_attempt.py:12-16 | an attempt is written as an object with exactly the keys "exam" and "answers" |
| Attempts.AttemptFromJson | LR1/entities/previous_exam_attempt.py:18-33 | empty data, a missing "exam" or a missing "answers" raises; a bad exam raises its own error; answers that are not a list raise; otherwise the attempt is built from the two fields |
| Attempts.AttemptRoundTrip | LR1/entities/previous_exam_attempt.py:12-30 | reading back a written attempt gives the same exam and answers |
| Answering.ReadAnswers | LR1/entities/student.py:79-84 | a reading that completes yields exactly one answer per question |
| Answering.ReadAnswersNonBlank | LR1/entities/student.py:79-84 | every answer collected is stripped and non-empty, and there are never more answers than questions |
| Answering.ReadAnswersRest | LR1/entities/student.py:79-84 | the reading consumes a prefix of the input, and what is left is the rest of it |
| Answering.ReadAnswerLines | LR1/entities/student.py:79-84 | the reading loop collects the answers, the remaining input and whether it completed, exactly as `ReadAnswers` |
| Retakes.StrippedKeys | LR1/entities/student.py:170 | the practice test compares each answer with the stripped correct answer, one key per question |
| Retakes.AllCorrect | LR1/entities/student.py:191-199 | the retake loop reports a pass exactly when every new answer equals its correct answer |
| Retakes.CountCorrect | LR1/entities/student.py:164-173 | the practice loop counts the answers equal to their stripped correct answer |
| ErrorAnalysis.ErrorsUpTo | LR1/entities/student.py:98-101 | one error entry per wrong answer among the first n, in increasing question order; the errors and the score add up to n |
| ErrorAnalysis.ErrorStep | LR1/entities/student.py:98-103 | one more question appends an error and sets the last error topic exactly when its answer is wrong |
| ErrorAnalysis.ErrorsUpToComplete | LR1/entities/student.py:98-101 | every wrong answer among the first n questions has its error entry in the list |
| ErrorAnalysis.LastErrorTopic | LR1/entities/student.py:102-103 | the topic kept is the topic of the last error, and there is none exactly when there are no errors |
| ErrorAnalysis.Analyze | LR1/entities/student.py:91-107 | no attempt or no questions gives no errors, keeps the topics and saves nothing; fewer answers than questions raises; otherwise errors and score add up to the number of questions, the topics become the last error's topic when there are errors, and the student is saved |
| ErrorAnalysis.ErrorsOfTwoQuestionExam | LR1/tests/test_student.py:52-58 | the right answers give no errors, and the answers "1", "2" give two |
| ErrorAnalysis.StudyErrorsStep | LR1/entities/student.py:136-144 | studying the errors from k on is studying error k and then the errors after it |
| ErrorAnalysis.StudyErrorEffect | LR1/entities/student.py:136-144 | studying one error removes its topic exactly when some material has that topic; without a topic set nothing happens |
| ErrorAnalysis.StudyErrorsEffect | LR1/entities/student.py:126-152 | studying all errors removes from the topic set exactly the error topics that some material covers |
| StudentRecords.MaterialsToJson | LR1/entities/student.py:279-286 | materials are written one object per material, in order |
| StudentRecords.MaterialsFromJson | LR1/entities/student.py:304-305 | a materials list reads back one material per element, in order |
| StudentRecords.MaterialsRoundTrip | LR1/entities/student.py:279-286 | reading back written materials gives the same materials |
| StudentRecords.StudentToJson | LR1/entities/student.py:276-294 | a student is written with the six keys; the attempt is null exactly when absent; materials and topics are null exactly when absent or empty |
| StudentRecords.StudentToJsonAttempt | LR1/entities/student.py:291 | "exam_result" holds the written attempt or null |
| StudentRecords.StudentToJsonMaterials | LR1/entities/student.py:278-292 | "materials" holds the written list when the list is non-empty, otherwise null |
| StudentRecords.StudentToJsonTopics | LR1/entities/student.py:293 | "unexplored_topics" holds the topics as a list when the set is non-empty, otherwise null |
| StudentRecords.TruthyField | LR1/entities/student.py:302-307 | a field is taken only when its key is present and its value is truthy |
| StudentRecords.AttemptField | LR1/entities/student.py:302-303 | an attempt is read exactly when "exam_result" is present and truthy |
| StudentRecords.MaterialsField | LR1/entities/student.py:304-305 | a materials list read back is never empty |
| StudentRecords.TopicsField | LR1/entities/student.py:306-307 | a topic set read back is never empty |
| StudentRecords.StudentFromJson | LR1/entities/student.py:296-308 | a student is read only from an object; the attempt is present exactly when its field is truthy; materials and topics read back are never empty |
| StudentRecords.AttemptFieldRoundTrip | LR1/entities/student.py:291-303 | the exam result survives writing and reading back |
| StudentRecords.MaterialsFieldRoundTrip | LR1/entities/student.py:292-305 | materials survive writing and reading back, with an empty list read back as none |
| StudentRecords.TopicsFieldRoundTrip | LR1/entities/student.py:293-307 | the topic set survives writing and reading back, with an empty set read back as none |
| StudentRecords.StudentRoundTrip | LR1/entities/student.py:276-308 | reading back a written student keeps id, names and exam result, and turns empty materials or topics into none |
| StudentRecords.LoadStudent | LR1/entities/student.py:209-219 | an unknown id gives none; a known id gives the decoded record, or none when decoding raises |
| StudentRecords.LoadSavedStudent | LR1/entities/student.py:209-246 | loading a student just saved under its id gives the normalised record |
| StudentRecords.ExamResultFor | LR1/entities/student.py:64-89 | a result is set only for an exam that loads under the titled, stripped subject, with one answer per question; what is left unread is a suffix of the input |
| StudentRecords.Enrol | LR1/entities/student.py:25-62 | the enrolment dialogue leaves a suffix of its input unread |
| StudentRecords.EnrolLastName | LR1/entities/student.py:38-57 | once the id is accepted, the dialogue reads the last name and then the rest; it never changes the id and leaves a suffix of its input unread |
| StudentRecords.EnrolFirstName | LR1/entities/student.py:44-57 | once the last name is accepted, the dialogue reads the first name and then the exam result; it never changes the id and leaves a suffix of its input unread |
| StudentRecords.EnrolOutcome | LR1/entities/student.py:25-62 | the student is saved exactly when the id is all digits and new, both names are alphabetic and the exam result was set; the stored record has the stripped id, titled names, that result and empty materials and topics; with no input nothing changes |
| StudentRecords.EnrolWithoutExam | LR1/entities/student.py:25-57 | valid id and names but no exam subject leave the student unsaved, with id and titled names set |
| Catalogue.SaveEntry | LR1/entities/student.py:239-246 | saving puts the value under its key and leaves every other entry as it was |
| Catalogue.DeleteEntry | LR1/entities/student.py:258-268 | deleting removes the key when present, keeps every other entry, and leaves the file untouched when the key is absent |
| Catalogue.SaveOverwrites | LR1/entities/exam.py:101-105 | a second save under the same key replaces the first |
| Catalogue.DeleteAfterSave | LR1/entities/exam.py:101-127 | deleting a key just saved leaves the other entries as they were |
| Catalogue.Store.constructor | LR1/entities/exam.py:84-99 | the store holds the three files it is given |
| Exams.QuestionFromJson | LR1/entities/exam.py:140 | a question read from JSON writes back to the same JSON |
| Exams.QuestionsToJson | LR1/entities/exam.py:134 | questions are written one triple per question, in order |
| Exams.QuestionsFromJson | LR1/entities/exam.py:140 | a list reads back one question per element, in order, and fails only when some element is not a triple |
| Exams.ExamToJson | LR1/entities/exam.py:131-135 | an exam is written as an object with the keys "subject" and "questions" |
| Exams.ExamFromJson | LR1/entities/exam.py:137-141 | an exam is read only from an object; a missing "questions" gives no questions; a missing "subject" gives no subject |
| Exams.QuestionsRoundTrip | LR1/entities/exam.py:134-140 | reading back written questions gives the same triples in the same order |
| Exams.ExamRoundTrip | LR1/entities/exam.py:131-141 | reading back a written exam gives the same subject and questions |
| Exams.LoadExam | LR1/entities/exam.py:72-82 | an unknown subject gives none; a known one gives the decoded exam |
| Exams.LoadSavedExam | LR1/entities/exam.py:72-105 | loading an exam just saved under its subject gives it back |
| Exams.EntryStep | LR1/entities/exam.py:33-55 | one pass of the question loop: a question it produces is non-blank; the pass leaves a suffix of the input, and a pass that does not stop consumes at least a line; end of input stops the loop |
| Exams.ReadQuestions | LR1/entities/exam.py:32-55 | every question collected has a non-blank topic, prompt and answer; the loop ends unfinished only at end of input, and what it leaves unread is a suffix of the input |
| Exams.ReadOneQuestion | LR1/entities/exam.py:32-55 | a question followed by anything but "да" is collected and ends the loop |
| Exams.ReadAndContinue | LR1/entities/exam.py:50-55 | a question followed by "да" is collected and the loop goes on with the rest |
| Exams.ReadEntry | LR1/entities/exam.py:33-55 | one pass of the loop computes exactly `EntryStep` |
| Exams.Exam.constructor | LR1/entities/exam.py:11-13 | a new exam has the given subject and no questions |
| Exams.Exam.Save | LR1/entities/exam.py:101-108 | the exams file gets the exam's record under its subject |
| Exams.Exam.Delete | LR1/entities/exam.py:119-129 | the subject's entry is removed from the exams file |
| Exams.Exam.SetInfo | LR1/entities/exam.py:15-60 | an empty or known subject aborts without saving; otherwise the questions typed are collected as `ReadQuestions` says, and the exam is saved when a reply other than "да" ends the loop; at end of input the questions stay collected and nothing is saved |
| JsonData.ReadOptStr | LR1/entities/exam.py:139 | a string or null is read back, and writes back unchanged |
| JsonData.StrList | LR1/entities/student.py:293 | a list of strings is written one string per element |
| JsonData.ReadStrList | LR1/entities/student.py:307 | a list reads as strings exactly when every element is a string, and writes back unchanged |
| JsonData.ReadStrListOfStrList | LR1/entities/student.py:293-307 | a written list of strings reads back to itself |
| Materials.MaterialToJson | LR1/entities/educational_materials.py:114-121 | a material is written with the keys subject, topic, title and author |
| Materials.MaterialFromJson | LR1/entities/educational_materials.py:123-130 | a missing topic, subject, title or author raises for the first one read in that order; otherwise the four fields are read |
| Materials.MaterialRoundTrip | LR1/entities/educational_materials.py:114-130 | reading back a written material gives the same four fields |
| Materials.LoadMaterial | LR1/entities/educational_materials.py:51-62 | an unknown topic gives none; a known one gives the decoded material |
| Materials.LoadSavedMaterial | LR1/entities/educational_materials.py:51-86 | loading a material just saved under its topic gives it back |
| Materials.LoadDeletedMaterial | LR1/entities/educational_materials.py:51-110 | a deleted topic no longer loads |
| Materials.MaterialDialogue | LR1/entities/educational_materials.py:17-49 | the material is saved exactly when subject, topic, title and author are non-blank and the topic is new, with the four stripped values; with no input nothing changes; what is left unread is a suffix of the input |
| Materials.EducationalMaterial.constructor | LR1/entities/educational_materials.py:11-15 | a new material has no subject and the given topic, title and author |
| Materials.EducationalMaterial.Save | LR1/entities/educational_materials.py:81-89 | the materials file gets the material's record under its topic |
| Materials.EducationalMaterial.Delete | LR1/entities/educational_materials.py:101-112 | the topic's entry is removed from the materials file |
| Materials.EducationalMaterial.SetInfo | LR1/entities/educational_materials.py:17-49 | the material's fields and the file become what `MaterialDialogue` says |
| Literature.LookupLiterature | LR1/entities/additional_classes.py:25-31 | the topic is not found exactly when it is not in the catalogue; a book found carries the entry's title and author |
| Literature.Recommend | LR1/entities/additional_classes.py:25-58 | without a catalogue entry nothing changes; otherwise the student's list holds the book, created when absent; the book is appended and the student saved exactly when no book with the same topic, title and author is there |
| Literature.RecommendTwice | LR1/entities/additional_classes.py:38-56 | a second recommendation of the same book changes nothing and saves nothing |
| Literature.RecommendToNewStudent | LR1/entities/additional_classes.py:33-46 | a student without materials gets a one-book list and is saved |
| Literature.RecommendUnknownTopic | LR1/entities/additional_classes.py:25-58 | a topic missing from the catalogue leaves the materials, none included, and saves nothing |
| Consultations.AdditionalClasses.constructor | LR1/entities/additional_classes.py:6-8 | the consultation holds its student and topic |
| Consultations.AdditionalClasses.RecommendLiterature | LR1/entities/additional_classes.py:20-62 | the student's materials and the students file become what `Recommend` says |
| Consultations.AdditionalClasses.ConductConsultation | LR1/entities/additional_classes.py:10-18 | the consultation performs the recommendation, and no failure escapes it |
| Students.Student.constructor | LR1/entities/student.py:17-23 | a new student has the given id and nothing else |
| Students.Student.FromData | LR1/entities/student.py:296-308 | a student built from a record holds exactly that record |
| Students.Student.Save | LR1/entities/student.py:239-246 | the students file gets the student's record under its id |
| Students.Student.Delete | LR1/entities/student.py:258-268 | the id's entry is removed from the students file |
| Students.Student.AnalyzeErrors | LR1/entities/student.py:91-107 | the errors returned, the new topics and the file are what `Analyze` says of the old state |
| Students.Student.ScanAnswers | LR1/entities/student.py:98-103 | the scanning loop yields `ErrorsUpTo` over all questions, or the index error when answers run out; the topics become the last error's topic up to that point |
| Students.Student.StudyMaterials | LR1/entities/student.py:126-152 | without materials nothing changes; otherwise the topics end as the analysis's topics minus those the materials cover |
| Students.Student.StudyAllErrors | LR1/entities/student.py:136-144 | the loop over the errors studies each in turn, as `StudyErrors` |
| Students.Student.StudyOneError | LR1/entities/student.py:137-144 | the loop over the materials removes the error's topic when one matches, as `StudyError` |
| Students.Student.ReExam | LR1/entities/student.py:181-207 | without an exam nothing happens; otherwise the answers are read, and on completion the result becomes the same exam with the new answers and the pass is reported exactly when all are right; an abandoned reading keeps the old result |
| Students.Student.PracticeTest | LR1/entities/student.py:155-179 | without an exam nothing happens; otherwise the drawn questions are answered and the count of answers equal to the stripped key is reported, never more than the number drawn |
| Students.Student.SetExamResult | LR1/entities/student.py:64-89 | the exam result and the input left are what `ExamResultFor` says |
| Students.Student.SetInfo | LR1/entities/student.py:25-62 | the student's record and the students file become what `Enrol` says |
| Students.Student.SetLastName | LR1/entities/student.py:38-57 | after an accepted id, the student's record and the students file become what `EnrolLastName` says |
| Students.Student.SetFirstName | LR1/entities/student.py:44-57 | after an accepted last name, the student's record and the students file become what `EnrolFirstName` says |
| ConsoleStates.Step | LR1/console/states.py:30-136 | the program exits exactly on "0" from the initial menu; "0" elsewhere clears the student; "1" from the initial menu reaches the student menu exactly when a student is logged in |
| ConsoleStates.StartInv | LR1/console/console.py:15-20 | the console starts in the initial menu without a student and has not exited |
| ConsoleStates.StepPreservesInv | LR1/console/states.py:30-136 | every transition keeps the invariant: no student in the initial, teacher and delete menus, and one in the student menu |
| ConsoleStates.RunPreservesInv | LR1/console/console.py:25-35 | the invariant holds after any number of transitions |
| ConsoleStates.RunAppend | LR1/console/console.py:25-35 | running one more choice is one more transition after the run |
| ConsoleStates.ExitOnlyFromInitial | LR1/console/states.py:38-39 | the program exits only on "0" in the initial menu |
| ConsoleStates.InitialMenu | LR1/console/states.py:30-43 | "2" leads to the teacher menu; "1" leads to the student menu exactly when the login loaded a student; other choices except "0" change nothing |
| ConsoleStates.TeacherMenu | LR1/console/states.py:79-92 | "1" leads to adding, "2" to deleting, "0" back to the initial menu without a student; others change nothing |
| ConsoleStates.SubMenus | LR1/console/states.py:105-136 | in the add and delete menus "0" goes back to the teacher menu without a student, and every other choice stays |
| Consoles.LoginOutcomeOf | LR1/console/console.py:37-50 | a student is loaded only for an id that loads; an id that is known but fails to load clears the student; an unknown id or no input leaves it alone |
| Consoles.Console.constructor | LR1/console/console.py:15-20 | a new console is in the initial menu with no student, exam or material |
| Consoles.Console.LogIn | LR1/console/console.py:37-50 | one line is consumed; the student is set to the loaded record, cleared when loading fails, and left alone for an unknown id |
| Consoles.Console.ProcessStudentChoice | LR1/console/console.py:52-74 | the student's record, the students file and the unread input are what `StudentChoiceEffect` gives: "1" is `Analyze`, "2" reads a topic and is `Recommend`, "3" is `StudyErrors` over the materials, "4" reads the practice answers, "5" replaces the attempt as `ReadAnswers` says; without a student, or on another choice, nothing changes |
| Consoles.Console.ProcessAddedChoice | LR1/console/console.py:76-90 | choices "1", "2" and "3" replace the student, exam or material with a fresh one holding what `Enrol`, `ReadQuestions` or `MaterialDialogue` gives; the files and the unread input are what `AddedChoiceFiles` gives; each other field stays as it was |
| Consoles.Console.ProcessDeletedChoice | LR1/console/console.py:92-109 | as `DeletedChoiceFiles` gives: one line is read for choices "1" to "3"; a student is deleted under the loaded record's id only when the id loads; an exam or material is deleted by the line read; other choices read and change nothing |
| Consoles.Console.HandleInput | LR1/console/states.py:30-136 | the menu state moves as `Step` says for the choice and the login's outcome; the files, the held student and the unread input (a suffix) change as `Handled` says for the old state; in particular the held student is the loaded record after a login, the enrolment after the added menu's "1", none after "0" outside the initial menu, and the one held before otherwise; a logged-in or enrolled student is a fresh object |
| Consoles.Console.HandleInitialInput | LR1/console/states.py:30-43 | "1" reads one line and logs in, with the student as `LogIn` gives: the held student becomes the loaded record, or none when loading fails, and stays as it was for an unknown id or no input; "2" opens the teacher menu; "0" exits; no file changes, and no other choice changes the held student |
| Consoles.Console.HandleStudentInput | LR1/console/states.py:58-65 | "0" drops the student and returns to the initial menu; any other choice is `ProcessStudentChoice` on the same student |
| Consoles.Console.HandleTeacherInput | LR1/console/states.py:79-92 | "1" and "2" open the add and delete menus, "0" returns to the initial menu without a student; no other choice changes the held student |
| Consoles.Console.HandleAddedInput | LR1/console/states.py:105-112 | "0" returns to the teacher menu; the files and the unread input are what `AddedChoiceFiles` gives; the held student is none after "0", the enrolled record after "1", and unchanged after any other choice |
| Consoles.Console.HandleDeletedInput | LR1/console/states.py:127-134 | "0" returns to the teacher menu; the files and the unread input are what `DeletedChoiceFiles` gives; the held student is none after "0" and unchanged otherwise |
| Consoles.Console.Turn | LR1/console/console.py:27-30 | the first line left is the choice and strictly less input is left, as a suffix of the lines after it; the state moves as `Step` says for what logging in meets; from a console that has not exited, the files, the held student and the input left change as `Handled` says for the old state (`TurnFrom`) |
| Consoles.Console.Start | LR1/console/console.py:25-35 | the choices read form a run (`Trace`) from the console as it was to the console as it is. Choice 0 is the first line. Each later choice is read where the previous one's handling left the input. Each choice's handling changes the files, the held student and the input as `Handled` says for its menu. The state is `Run` of the choices and the invariant is kept. The loop stops only once it has exited, on "0", or when the whole input has been read |
| Consoles.TraceAt | LR1/console/console.py:26-30 | in a run, turn `k` is read from line `starts[k]`: line 0 for the first, the line where turn `k - 1` left off for the others. The turn is taken from snapshot `k` to snapshot `k + 1` as `TurnTaken` says, leaving the input from `ends[k]` on |
| Consoles.TraceTurn | LR1/console/console.py:26-30 | a turn read from the run's last snapshot, on the line where the run left the input, that leaves a suffix unread extends the run by that turn |
| Numbers.IntToStr | LR2/model/student_handler.py:46-49 | `str(n)` is non-empty, has no surrounding space, and is all digits exactly for non-negative n |
| Numbers.ParseInt | LR2/model/validators.py:17-22 | `int(s)` fails on blank text, and accepts every stripped string of digits with a non-negative value |
| Numbers.ParseIntToStr | LR2/model/student_handler.py:26-49 | `int(str(n)) == n` for every integer |
| Text.Strip | LR1/entities/student.py:27 | `strip()` is empty exactly for blank text; otherwise it starts and ends with a non-space, and it is never longer |
| Text.StripUnchanged | LR1/entities/student.py:27 | text without surrounding space strips to itself |
| Text.Split | LR2/model/validators.py:28 | `split()` yields non-empty words without spaces |
| Text.SplitJoin | LR2/model/service.py:64 | splitting words joined by single spaces gives the words back |
| Text.ToLower | LR2/model/repositories.py:51 | lower-casing a character keeps letters letters and spaces spaces, and leaves no capital |
| Text.ToUpper | LR2/model/service.py:64 | upper-casing a character keeps letters letters and spaces spaces, and leaves no small letter |
| Text.Lower | LR2/model/repositories.py:51 | `lower()` maps each character, keeping the length |
| Text.LowerIdempotent | LR2/model/repositories.py:51 | lower-casing twice is lower-casing once |
| Text.Capitalize | LR2/model/service.py:64 | `capitalize()` keeps the length, and keeps a word a word and an alphabetic word alphabetic |
| Text.CapitalizeIdempotent | LR2/model/service.py:64 | capitalising twice is capitalising once |
| Text.Title | LR1/entities/student.py:38 | `title()` keeps the length and keeps alphabetic text alphabetic, and only that |
| Ordering.SortedStrings | LR2/model/repositories.py:96 | `sorted(set)` lists each element once, in strictly ascending order |
| Ordering.SortedInts | LR2/model/repositories.py:96 | `sorted(set)` of integers lists each element once, in strictly ascending order |
| Validation.IntOf | LR2/model/validators.py:17 | `int` of an integer value is that integer |
| Validation.FirstMissing | LR2/model/validators.py:12-14 | the field reported is the first in order that is absent or blank, and none is reported exactly when all are present |
| Validation.NoneMissing | LR2/model/validators.py:11-14 | no field is missing exactly when all six are present |
| Validation.CheckNumbers | LR2/model/validators.py:16-26 | the numbers pass exactly when the course is 1–4 and both counts parse with 0 ≤ completed ≤ total; a non-integer course, a course out of range, a negative count and completed over total raise their own errors, in that order |
| Validation.CheckName | LR2/model/validators.py:28-30 | the name passes exactly when it is a string of three alphabetic words |
| Validation.Validate | LR2/model/validators.py:10-33 | validation passes exactly when the record is valid |
| Validation.ValidateOrder | LR2/model/validators.py:11-30 | a missing-field error is raised exactly when a field is missing, and names a missing required field; a name error comes only after every earlier check passed |
| Validation.MissingFieldFirst | LR2/model/validators.py:12-14 | any missing field is reported before the other checks |
| Validation.CourseCheckedBeforeWorks | LR2/model/validators.py:17-19 | with all fields present, a course above 4 is reported whatever the counts are |
| Validation.ThreeAlphaJoin | LR2/model/validators.py:28-29 | three alphabetic words joined by spaces form a valid full name |
| Repositories.SameNumber | LR2/model/repositories.py:53-64 | `int(value) != n` raises exactly when the value does not parse, and is false exactly when it parses to n |
| Repositories.CriterionRaises | LR2/model/repositories.py:50-64 | a criterion raises exactly when its key is numeric and its value does not parse |
| Repositories.CriterionUnknownKey | LR2/model/repositories.py:50-64 | a criterion with an unknown key is always met |
| Repositories.PrefixStep | LR2/model/repositories.py:50-64 | the loop over the criteria raises once a criterion raises, and matches exactly while every criterion is met |
| Repositories.Selected | LR2/model/repositories.py:46-67 | the matches are never more than the students |
| Repositories.SelectedMembers | LR2/model/repositories.py:46-67 | the result holds exactly the stored students that meet every criterion |
| Repositories.RejectedMembers | LR2/model/repositories.py:69-73 | the students kept are exactly those that do not meet the criteria |
| Repositories.SelectedRejectedCount | LR2/model/repositories.py:69-73 | the matches and the students kept together account for every student |
| Repositories.SelectedAppend | LR2/model/repositories.py:48-66 | a student appended is matched at the end exactly when it meets the criteria, so stored order is kept |
| Repositories.EmptyCriteriaSelectAll | LR2/model/repositories.py:46-67 | empty criteria return every student |
| Repositories.UnknownKeyIgnored | LR2/model/repositories.py:50-64 | adding a criterion with an unknown key changes nothing |
| Repositories.TextCriterionIgnoresCase | LR2/model/repositories.py:51-57 | the text criteria give the same answer for a value and its lower-case form |
| Repositories.RemoveFirst | LR2/model/repositories.py:72 | `list.remove` drops one element when it is present and changes nothing otherwise |
| Repositories.RemoveNextMatch | LR2/model/repositories.py:71-72 | removing the next match from what is left removes it as the deletion loop expects |
| Repositories.DropAll | LR2/model/repositories.py:69-73 | removing every match one by one leaves exactly the non-matching students in their order |
| Repositories.DropNone | LR2/model/repositories.py:70-73 | with no matches nothing is removed |
| Repositories.UniqueValues | LR2/model/repositories.py:86-96 | the language field gives its distinct values, sorted; the two count fields give their distinct integers, sorted; any other field gives an empty list |
| Repositories.PySlice | LR2/model/repositories.py:81 | a slice is never longer than the list |
| Repositories.PageContents | LR2/model/repositories.py:78-81 | page p holds the students from index (p-1)·size on, clipped to the list |
| Repositories.RecordOnItsPage | LR2/model/repositories.py:78-81 | student i is on page i/size+1, at position i mod size |
| Repositories.PageZero | LR2/model/repositories.py:78-81 | page 0 is empty |
| Repositories.InMemoryStudentRepository.constructor | LR2/model/repositories.py:40-41 | the repository starts with the given students |
| Repositories.InMemoryStudentRepository.AddStudent | LR2/model/repositories.py:43-44 | the student is appended at the end, so the total grows by one |
| Repositories.InMemoryStudentRepository.MatchesAll | LR2/model/repositories.py:49-64 | the inner loop raises exactly when a criterion raises, and otherwise matches exactly when every criterion is met |
| Repositories.InMemoryStudentRepository.SearchStudents | LR2/model/repositories.py:46-67 | the search loop returns `Search` of the stored students |
| Repositories.InMemoryStudentRepository.DeleteStudents | LR2/model/repositories.py:69-73 | a raising search changes nothing; otherwise exactly the matches are removed, the others keep their order, and their number is returned |
| Repositories.InMemoryStudentRepository.GetAllStudents | LR2/model/repositories.py:75-76 | all stored students are returned |
| Repositories.InMemoryStudentRepository.GetPaginatedStudents | LR2/model/repositories.py:78-81 | the page is the slice `Page` describes and never longer than the page size |
| Repositories.InMemoryStudentRepository.GetTotalStudents | LR2/model/repositories.py:83-84 | the total is the number of stored students |
| Repositories.InMemoryStudentRepository.GetUniqueValues | LR2/model/repositories.py:86-96 | the values are `UniqueValues` of the stored students |
| StudentHandlers.Records | LR2/model/student_handler.py:30 | the handler lists one record per `endElement("Student")` |
| StudentHandlers.Start | LR2/model/student_handler.py:16-19 | every start tag sets the current element; "Student" starts a fresh empty record; nothing else changes |
| StudentHandlers.Store | LR2/model/student_handler.py:24-26 | storing into the current record raises exactly when no record was started |
| StudentHandlers.Chars | LR2/model/student_handler.py:21-26 | text never changes the list of records or the current element |
| StudentHandlers.End | LR2/model/student_handler.py:28-31 | every end tag clears the current element; "Student" appends the current record |
| StudentHandlers.Apply | LR2/model/student_handler.py:16-31 | only text can raise |
| StudentHandlers.ApplyWellFormed | LR2/model/student_handler.py:16-31 | every event keeps the handler's references to records valid |
| StudentHandlers.ApplyAllWellFormed | LR2/model/student_handler.py:16-31 | a whole stream of events keeps them valid |
| StudentHandlers.ApplyAllAppend | LR2/model/student_handler.py:16-31 | feeding two streams is feeding the first and then the second |
| StudentHandlers.StudentsGrowOnlyAtEnd | LR2/model/student_handler.py:28-30 | the record list grows only on `endElement("Student")`, by the current record at the end |
| StudentHandlers.IgnoredText | LR2/model/student_handler.py:22 | blank text, or text with no current element, changes nothing |
| StudentHandlers.TextAfterClosingTagIgnored | LR2/model/student_handler.py:31 | text after a closing tag is ignored |
| StudentHandlers.NonFieldTextIgnored | LR2/model/student_handler.py:23-26 | text under an element that is not a field stores nothing |
| StudentHandlers.TextFieldChars | LR2/model/student_handler.py:23-24 | text under a text field is stored as it came, and a later chunk overwrites an earlier one |
| StudentHandlers.NumberFieldChars | LR2/model/student_handler.py:25-26 | text under a number field is stored as the integer it spells |
| StudentHandlers.FieldTextRaises | LR2/model/student_handler.py:22-26 | field text with no record started raises, and so does number-field text that does not parse |
| StudentHandlers.TextFieldReadable | LR2/model/student_handler.py:23-50 | a non-blank text field written reads back as that string |
| StudentHandlers.NumberFieldReadable | LR2/model/student_handler.py:25-49 | a number field written with `str` reads back as that integer |
| StudentHandlers.FieldRead | LR2/model/student_handler.py:16-61 | one written field element sets that field of the current record and nothing else |
| StudentHandlers.StudentRead | LR2/model/student_handler.py:16-52 | one written Student element appends one record with its six fields |
| StudentHandlers.ReadBack | LR2/model/student_handler.py:42-52 | the records expected back hold each student's fields, in order |
| StudentHandlers.StudentsRead | LR2/model/student_handler.py:16-52 | the written Student elements read back to one record per student, in order, after any records already there |
| StudentHandlers.DocumentRead | LR2/model/student_handler.py:36-52 | a whole written document reads back to one record per student, in order |
| StudentHandlers.SaxHandler.constructor | LR2/model/student_handler.py:11-14 | a new handler has no records and no current record or element |
| StudentHandlers.SaxHandler.StartElement | LR2/model/student_handler.py:16-19 | the handler moves as `Start` says |
| StudentHandlers.SaxHandler.Characters | LR2/model/student_handler.py:21-26 | the handler moves as `Chars` says, and reports when `Chars` raises |
| StudentHandlers.SaxHandler.EndElement | LR2/model/student_handler.py:28-31 | the handler moves as `End` says |
| StudentHandlers.SaxHandler.Feed | LR2/model/student_handler.py:16-31 | feeding events in turn reaches the state `ApplyAll` gives, and stops exactly when an event raises |
| StudentHandlers.DomHandler.WriteStudents | LR2/model/student_handler.py:36-52 | the document written is one Student element per student, with its fields in order |
| RosterService.Capitalized | LR2/model/service.py:64 | every word is capitalised, in place |
| RosterService.NoWordsBlank | LR2/model/service.py:62-64 | text with no words is blank |
| RosterService.FormatFioWords | LR2/model/service.py:60-64 | the formatted name's words are the original words capitalised, as many as before |
| RosterService.FormatFioIdempotent | LR2/model/service.py:60-64 | formatting a formatted name changes nothing |
| RosterService.FormatFioKeepsValidName | LR2/model/service.py:19-64 | a valid full name stays valid after formatting |
| RosterService.ValidatedRecord | LR2/model/service.py:17-27 | a record built from validated data is a storable record and has a non-negative count of works not completed |
| RosterService.StoredReadable | LR2/model/service.py:45-47 | a stored record is one the SAX handler can read back |
| RosterService.OutcomeMeaning | LR2/model/service.py:57-58 | an entry is added exactly when it is a record that validates, as the record built from it; a missing record fails; an invalid one raises its validation error |
| RosterService.AddEach | LR2/model/service.py:57-58 | the loop adds at most one record per entry, and all of them when none raises |
| RosterService.AddEachPrefix | LR2/model/service.py:57-58 | the records added are those of the leading entries, and a failure is the outcome of the entry right after them |
| RosterService.AddAllPrefix | LR2/model/service.py:55-58 | loading keeps the records added before the first entry that raises, and reports that entry's error |
| RosterService.AddEachAll | LR2/model/service.py:57-58 | when every entry succeeds, all their records are added and nothing is reported |
| RosterService.AddEachStep | LR2/model/service.py:57-58 | an entry that raises stops the loop; otherwise its record comes before those of the remaining entries |
| RosterService.StoredFieldsPresent | LR2/model/service.py:45-58 | a stored record's fields as read back are all present |
| RosterService.StoredFieldsValid | LR2/model/service.py:45-58 | a stored record's fields as read back validate and rebuild the same record |
| RosterService.AddAllStored | LR2/model/service.py:55-58 | re-adding the read-back fields of stored records restores exactly those records |
| RosterService.SaveLoadRoundTrip | LR2/model/service.py:45-58 | loading the file that saving wrote gives back the same roster, with no error |
| RosterService.StudentModel.constructor | LR2/model/service.py:13-15 | the model holds its repository |
| RosterService.StudentModel.AddStudent | LR2/model/service.py:17-28 | validation decides the error; invalid data is left as it was and the repository unchanged; valid data gets the formatted name and the repository gains exactly the record built from it |
| RosterService.StudentModel.LoadFromFile | LR2/model/service.py:49-58 | a parse failure raises before the roster is touched; otherwise the roster is emptied and refilled as `AddAll` says, with the first error raised |
| RosterService.StudentModel.AddEntry | LR2/model/service.py:58 | one entry appends its record, or raises and changes nothing |
| RosterService.StudentModel.AddEntries | LR2/model/service.py:55-58 | the roster and the error reported are what `AddAll` says of the entries |
| Pagination.TotalPagesLeast | LR2/view/pagination.py:62 | the page count is at least 1, holds every item, and is the least such count |
| Pagination.OnePage | LR2/view/pagination.py:62 | a roster that fits a page has one page |
| Pagination.TargetInRange | LR2/view/pagination.py:87-111 | from a page in range every button leads to a page in range |
| Pagination.EnabledIffMoves | LR2/view/pagination.py:67-72 | a button is enabled exactly when pressing it changes the page |
| Pagination.NextThenPrev | LR2/view/pagination.py:100-111 | next then previous returns to the page, away from the last page |
| Pagination.PaginatedView.constructor | LR2/view/pagination.py:7-11 | the view starts with page size 10, on page 1, with no items |
| Pagination.PaginatedView.UpdateView | LR2/view/pagination.py:113-115 | a refresh changes no page state |
| Pagination.PaginatedView.UpdatePaginationControls | LR2/view/pagination.py:60-72 | the label shows the page and the page count, which is at least 1; previous and first are enabled together, and so are next and last |
| Pagination.PaginatedView.FirstPage | LR2/view/pagination.py:87-91 | the view goes to page 1, refreshing only when the page changed, and stays in range |
| Pagination.PaginatedView.LastPage | LR2/view/pagination.py:93-98 | the view goes to the last page, refreshing only when the page changed, and is in range |
| Pagination.PaginatedView.PrevPage | LR2/view/pagination.py:100-104 | the view goes back one page unless on page 1, refreshing only when the page changed, and stays in range |
| Pagination.PaginatedView.NextPage | LR2/view/pagination.py:106-111 | the view goes on one page unless on the last, refreshing only when the page changed, and stays in range |
| Pagination.PaginatedView.ChangePageSize | LR2/view/pagination.py:74-85 | a positive integer becomes the page size and the view returns to page 1 and refreshes; a non-positive number or text that does not parse changes nothing |

## Left out

- File I/O: opening, `json.load`/`json.dump`, `os.makedirs` and the write-back of the three JSON files. Each file is a value, and a missing or undecodable file reads as empty.
- JSON values are limited to null, strings, lists and objects, which is all the applications write. A stored value of another shape makes the decoders report an error. Python would sometimes build an odd object from such data instead.
- `unexplored_topics` is written as a JSON list in ascending order. Python writes the set in an unspecified order.
- Printed text, the menus (`show_menu`) and every `display_*` method: they only print.
- `exit()` from the initial menu is a terminal flag on the console. End of input ends `Consoles.Console.Start`, which stands in for `KeyboardInterrupt`.
- `Students.Student.PracticeTest`: `random.sample` is replaced by the drawn questions, which are a parameter.
- `Students.Student.ReExam` and `Students.Student.PracticeTest` read all the answers first and judge them afterwards. The source judges each answer as it is read, which only changes the order of the printed feedback.
- The string operations are defined for ASCII and the basic Cyrillic alphabet, not for all of Unicode. They include letters, case mapping, `isalpha`, `isdigit` and whitespace.
- `int(s)` accepts surrounding whitespace, an optional sign and ASCII digits. Underscores and non-ASCII digits are not accepted.
- The xml.sax parser driver, chunking of text into several `characters` calls, entity handling and line-ending normalisation: the handler receives an event stream.
- `StudentHandlers.DomHandler.WriteStudents` returns the events a parser delivers when it reads the written document. minidom's construction, pretty-printing and the file write are left out. So is the layout whitespace between elements: `StudentHandlers.IgnoredText` shows the handler ignores it.
- `StudentModel.search_students`, `delete_students`, `get_paginated_students`, `get_total_students` and `get_unique_values` only delegate. They are the repository's methods here.
- `save_to_file` is `StudentHandlers.DomHandler.WriteStudents` applied to the repository's students.
- The validator is not a parameter: the model is tied to `BasicStudentValidator`.
- `RosterService.StudentModel.AddStudent` returns the updated field map instead of overwriting the caller's dict. In `load_from_file` that dict is also the handler's record, and that aliasing is not modelled.
- A `students` entry that points at a record the handler never created counts as a missing record. This cannot happen with the handler's own events.
- `_show_error` and the message boxes become outcome values. `update_view` is counted as a refresh.
- The controller, the Tk views and dialogs, and `main`: widget and dialog glue.
- `recommend_literature` builds a placeholder `EducationalMaterial(topic=self)` only to call `load_all` on it. The model reads the materials file directly.
- The test files are evidence for the properties above, not code to model.
- A numeric Group value in a field map is read through `str`, as the validator's blank check does.
