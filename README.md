# A verified model of the grade-management system's core logic

This project models, in Dafny, the sequential logic inside a school grade-management system. The system is made of several parts:

- a Go service that reads Moodle grades through a bounded task pool;
- Moodle plugins written in PHP that export grades to Excel and Word templates and serve course and student grade data;
- a React web client with date, import, report and sidebar utilities;
- a TypeScript API with notification, authorisation and controller bookkeeping.

Each source file of that core has a Dafny file of its own:

| part | Dafny files |
|---|---|
| Task pool | `pool.dfy` (`TaskPool.Pool`, a class whose methods update the queue, the closed flag and the metrics counters) and `course_usecase.dfy` (its caller) |
| Moodle codes and records | `grade_codes.dfy` (grade sources and components), `exam_type.dfy`, `user_grade.dfy`, `enrolled_user.dfy` |
| Loggers | `slog_value.dfy`, `otel_handler.dfy`, `rlog_handler.dfy` |
| Grade-export plugins | `custom_field.dfy`, `course_export.dfy`, `grade_report.dfy`, `course_data.dfy`, `student_grades.dfy`, `teacher_categories.dfy`, `template_manager.dfy`, `template_processor.dfy`, `excel_template.dfy` (`ExcelTemplate.Worksheet` is a class over the cell grid), `docx_exporter.dfy`, `quiz_export.dfy`, `assign_export.dfy`, `export_format.dfy`, `mdl_json.dfy` |
| Web utilities | `date_convert.dfy`, `date_picker.dfy`, `import_students.dfy`, `politics_report.dfy`, `politics_charts.dfy`, `sidebar.dfy` |
| API | `broadcaster.dfy` (`Broadcaster.NotificationBroadcaster` keeps the user-to-streams map), `notifications_controller.dfy`, `units.dfy`, `authz.dfy`, `students_controller.dfy`, `classes_controller.dfy`, `record_update.dfy`, `permission_tags.dfy`, `img_provider.dfy`, `api_errors.dfy`, `media_controller.dfy` |
| Shared helpers | `wrappers.dfy` (Option and Result), `strs.dfy` (the string built-ins of PHP, Go and JavaScript the core relies on), `ordered_map.dfy` (PHP arrays used as dictionaries) |

The model leaves the environment out or turns it into inputs:

- Databases, Moodle APIs, object storage and document libraries become function parameters or are left out.
- Goroutines and timers become explicit sequential steps.
- Durations and clock readings are given numbers.
- Code whose behaviour is not visible becomes an explicit parameter. The application error handler is the main case.

## Model

| member | source | states |
|---|---|---|
| TaskPool.Message | apps/sms-api/internal/pool/pool.go:15-22 | the text of each pool error; a recovered panic reads "task panicked: <value>" |
| TaskPool.ResultError | apps/sms-api/internal/pool/pool.go:226-250 | a task's recorded error is nil exactly for a normal return; a deadline (during the run or before it) becomes ErrTaskTimeout; a panic becomes a "task panicked" error; a returned error passes through unchanged |
| TaskPool.DefaultConfig | apps/sms-api/internal/pool/pool.go:61-72 | queue of 100, 5-minute task timeout, 30-second idle timeout, metrics on, a panic handler, one worker per CPU |
| TaskPool.ResultSlot.constructor | apps/sms-api/internal/pool/pool.go:129-131 | a pooled result starts with every field zero |
| TaskPool.ResultSlot.Reset | apps/sms-api/internal/pool/pool.go:404-410 | putResult clears id, error, duration and start time |
| TaskPool.ResultSlot.Value | apps/sms-api/internal/pool/pool.go:265-266 | the value sent on the result channel is a copy of the slot's four fields |
| TaskPool.ResultSlot.Fill | apps/sms-api/internal/pool/pool.go:220-252 | executeTask fills the pooled slot with the id, start time, error and duration |
| TaskPool.Deliver | apps/sms-api/internal/pool/pool.go:220-272 | a result taken from the pool, filled, copied to the channel and put back delivers exactly what was filled in |
| TaskPool.AfterCancel | apps/sms-api/internal/pool/pool.go:236-241 | before Close the outcome is the task's own; after Close cancelled every task context the task is not executed and reports context.Canceled, or ErrTaskTimeout when its own deadline had already expired |
| TaskPool.Pool.constructor | apps/sms-api/internal/pool/pool.go:113-134 | a nil configuration is replaced by the default one; the queue is empty, the pool open and every counter zero (a given queue size must be positive) |
| TaskPool.Pool.SubmitWithTimeout | apps/sms-api/internal/pool/pool.go:281-329 | a closed pool gives ErrPoolClosed and a nil task an error, both with nothing changed; with room the envelope is appended at the tail and Submitted and Queued grow by one; a full queue gives ErrPoolFull with the counters rolled back |
| TaskPool.Pool.Submit | apps/sms-api/internal/pool/pool.go:276-278 | SubmitWithTimeout with the configured task timeout, with the same four outcomes |
| TaskPool.Pool.UpdateExecutionMetrics | apps/sms-api/internal/pool/pool.go:413-423 | the total time grows by the duration; when something has completed the average is total / completed (integer division), otherwise it keeps its value |
| TaskPool.Pool.RecordExecution | apps/sms-api/internal/pool/pool.go:213-216 | exactly one of Completed or Failed grows, the total grows by the duration, the queued slot is released, and the metric invariant is kept |
| TaskPool.Pool.Step | apps/sms-api/internal/pool/pool.go:190-273 | a worker takes the head envelope: a malformed one only releases its queued slot; otherwise the result carries the envelope id and normalised error, an already-done context, and every context once the pool is closed, skips execution, a panic reaches the handler once, and exactly one of Completed/Failed grows; the pool invariant (Queued = queue length, Submitted = Completed + Failed + dropped + Queued, average = total / completed) is kept |
| TaskPool.Pool.RunUntilLast | apps/sms-api/internal/pool/pool.go:156-166 | workers drain the queue in FIFO order; the last envelope's result is what its outcome dictates |
| TaskPool.Pool.SubmitAndWait | apps/sms-api/internal/pool/pool.go:337-353 | a refused submission becomes a result carrying only that error; an accepted task's result is returned |
| TaskPool.Pool.GetMetrics | apps/sms-api/internal/pool/pool.go:356-369 | the snapshot copies the counters; with metrics on, Queued equals the queue length and Submitted ≥ Completed + Failed; all counters are non-negative |
| TaskPool.Pool.Close | apps/sms-api/internal/pool/pool.go:372-382 | the first call returns nil and closes the pool, running shutdown once; every later call returns ErrPoolClosed and changes nothing |
| TaskPool.Pool.DrainBatch | apps/sms-api/internal/pool/pool.go:156-166 | workers take up to the given number of envelopes in FIFO order; an envelope of the batch leaves its result in its own slot |
| TaskPool.Pool.OfferTask | apps/sms-api/internal/pool/pool.go:442-446 | one batch goroutine's Submit: a refusal is written to slot i and leaves the queue; an acceptance appends task i's envelope and tracks it under slot i |
| TaskPool.Pool.SubmitBatch | apps/sms-api/internal/pool/pool.go:432-462 | results and errors both have one slot per task; slot i holds task i's refusal error with a zero result, or task i's result; a closed pool refuses every slot, a nil task gets its error, and ErrPoolFull is the only other refusal; whatever the workers do, a batch whose non-nil tasks fit in the free room is accepted whole; when no worker takes an envelope until all are offered, a non-nil task is refused exactly when the non-nil tasks before it already filled the free room |
| TaskPool.CountedStep | apps/sms-api/internal/pool/pool.go:437-446 | offering one more task keeps the relation between refusals and the room left in the queue |
| TaskPool.NonNilCountPrefix | apps/sms-api/internal/pool/pool.go:437-446 | a prefix of the batch has no more non-nil tasks than the whole batch |
| TaskPool.SentinelMessagesDistinct | apps/sms-api/internal/pool/pool.go:15-22 | ErrPoolClosed, ErrTaskTimeout, ErrPoolFull and the nil-task error print differently |
| TaskPool.QueueFullScenario | apps/sms-api/internal/pool/pool_test.go:66-104 | with QueueSize 2 and no worker running, two submissions succeed and the third gets ErrPoolFull |
| TaskPool.DoubleCloseScenario | apps/sms-api/internal/pool/pool_test.go:616-655 | a second Close gives ErrPoolClosed, and so does a later Submit |
| CourseUseCase.StudentsOfSingle | apps/sms-api/internal/usecases/course.go:72-78 | one enrolled user contributes ToStudent of itself exactly when it is a student |
| CourseUseCase.StudentsOfAppend | apps/sms-api/internal/usecases/course.go:71-78 | filtering distributes over concatenation, so the kept students stay in enrolment order |
| CourseUseCase.StudentsOfLength | apps/sms-api/internal/usecases/course.go:71-85 | the student list is never longer than the enrolment list, and it is empty exactly when no user is a student |
| CourseUseCase.FilterStudents | apps/sms-api/internal/usecases/course.go:71-78 | the loop yields ToStudent of exactly the users with a student role, in their original order |
| CourseUseCase.TaskOutcome | apps/sms-api/internal/usecases/course.go:186-196 | a task that runs fails exactly when the provider fails; the pool records ErrTaskTimeout exactly when the provider's error wraps a deadline, and otherwise the wrapped provider message |
| CourseUseCase.OutcomeFor | apps/sms-api/internal/pool/pool.go:235-250 | task i runs exactly when its deadline did not pass in the queue; it succeeds exactly when it runs and the provider succeeds; it reports ErrTaskTimeout exactly when the deadline passed in the queue or the provider's error wraps a deadline |
| CourseUseCase.Execute | apps/sms-api/internal/usecases/course.go:172-197 | a provider error is returned wrapped with the student untouched; on success the student's Grades become ToGrades of the first user-grade entry when there is one, and nothing else changes |
| CourseUseCase.FirstSome | apps/sms-api/internal/usecases/course.go:122-151 | the lowest index holding an error, or none exactly when no slot holds one |
| CourseUseCase.ScanBatch | apps/sms-api/internal/usecases/course.go:121-153 | the two scans report the lowest failing submission first, then the lowest failing execution, else nothing |
| CourseUseCase.SubmissionErrorsComeFirst | apps/sms-api/internal/usecases/course.go:121-133 | whenever some submission failed, the reported error is a submission error, whatever the execution results |
| CourseUseCase.BuildTasks | apps/sms-api/internal/usecases/course.go:108-116 | one task per student, task i bound to student index i |
| CourseUseCase.StudentIds | apps/sms-api/internal/usecases/course.go:128-147 | the ids read from the shared student objects, index by index |
| CourseUseCase.RunAccepted | apps/sms-api/internal/usecases/course.go:186-194 | each accepted task that was not left in the queue past its deadline and whose provider call succeeds updates only its own student's grades |
| CourseUseCase.FetchGradeItemsWithBatch | apps/sms-api/internal/usecases/course.go:102-154 | the batch error is the first failing submission, else the first failing execution; with no error every slot was accepted, ran before its deadline and had its provider call succeed; an accepted slot records ErrTaskTimeout exactly when its deadline passed in the queue or the provider's error wraps a deadline; student k's grades come from its own task |
| CourseUseCase.NewStudentRefs | apps/sms-api/internal/usecases/course.go:76-77 | one distinct, fresh student object per student, in order |
| CourseUseCase.Values | apps/sms-api/internal/usecases/course.go:92-95 | the students as the response carries them |
| CourseUseCase.GetUserCourseDetails | apps/sms-api/internal/usecases/course.go:50-100 | repository and provider errors are returned as is; no students gives an empty list and submits nothing; otherwise the response holds, in order, every student with its fetched grades |
| UserGrades.ToGrade | apps/sms-api/internal/mdlapi/usrgrade.go:73-84 | copies id (widened), name, type, module, raw grade, submitted and graded timestamps and weighted raw unchanged |
| UserGrades.ToGrades | apps/sms-api/internal/mdlapi/usrgrade.go:29-40 | the slice has one slot per grade item; slot i is ToGrade of item i, or the zero Grade when item i is the course total |
| UserGrades.GradesOf | apps/sms-api/internal/mdlapi/usrgrade.go:29-40 | the value the loop builds, slot by slot, for callers that are functions |
| UserGrades.UnmarshalUpdateResponse | apps/sms-api/internal/mdlapi/usrgrade.go:108-131 | nil data leaves the receiver; 0 decodes to true and 1 to false; any other integer, a string or malformed JSON is an error that leaves the receiver unchanged |
| UserGrades.NullUpdateResponseIsSuccess | apps/sms-api/internal/mdlapi/usrgrade.go:113-127 | a JSON null reads as 0 and so as success |
| EnrolledUsers.HasStudentRole | apps/sms-api/internal/mdlapi/enrolledusr.go:34-43 | true exactly when some role has id 5 or short name "student" |
| EnrolledUsers.NoRolesIsNotStudent | apps/sms-api/internal/mdlapi/enrolledusr.go:35-42 | a user without roles is not a student |
| EnrolledUsers.IsStudentOrderIndependent | apps/sms-api/internal/mdlapi/enrolledusr.go:35-40 | two users with the same roles in any order are both students or both not |
| EnrolledUsers.ToStudent | apps/sms-api/internal/mdlapi/enrolledusr.go:45-54 | email, first name, full name, id, last name and username are copied unchanged; the grades start empty |
| GradeCodes.IsValidSourceExactly | apps/sms-api/internal/mdlapi/gradesrc.go:37-65 | GradeSource.IsValid holds exactly for the 22 declared constants |
| GradeCodes.IsValidComponentExactly | apps/sms-api/internal/mdlapi/gradecomp.go:63-91 | GradeComponent.IsValid holds exactly for the 22 declared constants |
| GradeCodes.NamingScheme | apps/sms-api/internal/mdlapi/gradesrc.go:119-142 | source constant i is "mod/" + module name i and component constant i is "mod_" + the same name (gradecomp.go:10-33) |
| GradeCodes.ToComponentPairsConstants | apps/sms-api/internal/mdlapi/gradesrc.go:68-117 | ToComponent maps the i-th source constant to the i-th component constant |
| GradeCodes.ToSourcePairsConstants | apps/sms-api/internal/mdlapi/gradecomp.go:99-148 | ToSource maps the i-th component constant to the i-th source constant |
| GradeCodes.ToComponent | apps/sms-api/internal/mdlapi/gradesrc.go:68-117 | a source outside the enum converts to "", and a valid source to a valid component |
| GradeCodes.ToSource | apps/sms-api/internal/mdlapi/gradecomp.go:99-148 | a component outside the enum converts to "", and a valid component to a valid source |
| GradeCodes.SourceRoundTrip | apps/sms-api/internal/mdlapi/gradesrc.go:68-117 | every valid source converts to a valid component that converts back to it |
| GradeCodes.ComponentRoundTrip | apps/sms-api/internal/mdlapi/gradecomp.go:99-148 | every valid component converts to a valid source that converts back to it |
| GradeCodes.UnmarshalSource | apps/sms-api/internal/mdlapi/gradesrc.go:16-34 | nil data changes nothing; a decoding error or a string outside the enum is returned with the receiver unchanged; a valid string is stored as-is |
| GradeCodes.UnmarshalComponent | apps/sms-api/internal/mdlapi/gradecomp.go:41-59 | the same rules for components |
| GradeCodes.UnmarshalSourceRejectsNull | apps/sms-api/internal/mdlapi/gradesrc.go:21-31 | a JSON null decodes to "", which is not a valid source, so it is rejected and the receiver kept |
| GradeCodes.GradableModules | apps/sms-api/internal/mdlapi/gradesrc.go:151-165 | eleven distinct, valid sources |
| ExamTypes.String | apps/sms-api/internal/mdlapi/coursegrades.go:63-65 | a value in 0..2 prints as its code and that code maps back to it; any other value prints "" |
| ExamTypes.Marshal | apps/sms-api/internal/mdlapi/coursegrades.go:38-40 | marshalling writes the JSON string of String(t), non-empty exactly for the three constants |
| ExamTypes.Unmarshal | apps/sms-api/internal/mdlapi/coursegrades.go:13-36 | "15P", "1T" and "Thi" decode to Exam15M, Exam45M and ExamFinal; any other string, or a decoding error, is returned with the receiver unchanged; nil data changes nothing |
| ExamTypes.MarshalRoundTrip | apps/sms-api/internal/mdlapi/coursegrades.go:13-40 | unmarshalling what MarshalJSON wrote gives back each of the three exam types |
| ExamTypes.MarshalOutOfRange | apps/sms-api/internal/mdlapi/coursegrades.go:38-40 | a value outside the enum marshals to "" and fails to decode |
| ExamTypes.MapsAreInverse | apps/sms-api/internal/mdlapi/coursegrades.go:48-58 | ExamTypeMap and ReverseExamTypeMap are inverse bijections on three entries |
| OtelHandler.ConvertValue | apps/sms-api/internal/logger/otel.go:295-324 | a uint64 up to 2^63-1 becomes an Int64 of the same value and a larger one a Float64; a group becomes a map of its members' entries |
| OtelHandler.MemberEntries | apps/sms-api/internal/logger/otel.go:272-280 | an empty-keyed group is inlined as one entry per member, keys in member order |
| OtelHandler.AttrEntriesCases | apps/sms-api/internal/logger/otel.go:270-293 | AddAttr appends each member of an empty-keyed group in order, nothing for the empty attribute, and exactly one entry with the attribute's key otherwise |
| OtelHandler.AttrsEntriesAppend | apps/sms-api/internal/logger/otel.go:255-260 | AddAttrs of a concatenation appends the two parts' entries one after the other |
| OtelHandler.AttrsEntriesKeyed | apps/sms-api/internal/logger/otel.go:255-293 | attributes with non-empty keys map one to one onto entries with the same keys and converted values |
| OtelHandler.KvBuffer.constructor | apps/sms-api/internal/logger/otel.go:226-228 | a new buffer is empty |
| OtelHandler.KvBuffer.AddAttr | apps/sms-api/internal/logger/otel.go:270-293 | appends this attribute's entries to the buffer, and reports true |
| OtelHandler.KvBuffer.AddAttrs | apps/sms-api/internal/logger/otel.go:255-260 | appends every attribute's entries in order |
| OtelHandler.KvBuffer.Clone | apps/sms-api/internal/logger/otel.go:239-244 | a fresh buffer with equal contents, so later appends to it do not reach the original |
| OtelHandler.Len | apps/sms-api/internal/logger/otel.go:231-236 | a nil buffer has length 0, any other its number of entries |
| OtelHandler.KeyValues | apps/sms-api/internal/logger/otel.go:247-252 | the buffer's entries followed by kvs; a nil buffer gives kvs back |
| OtelHandler.CloneBuffer | apps/sms-api/internal/logger/otel.go:239-244 | the clone of nil is nil; otherwise a fresh buffer with the same entries |
| OtelHandler.NextNonEmpty | apps/sms-api/internal/logger/otel.go:174-179 | the first group, from the leaf outwards, that has attributes, or none exactly when every group is empty |
| OtelHandler.KeyValueOf | apps/sms-api/internal/logger/otel.go:190-202 | the pointer-walking loop builds the group's key-value from the leaf outwards |
| OtelHandler.WrapNesting | apps/sms-api/internal/logger/otel.go:194-200 | each outer group with attributes adds exactly one map level, and what it wraps is its last entry |
| OtelHandler.KeyValueLeafInnermost | apps/sms-api/internal/logger/otel.go:190-202 | the leaf group, holding its own attributes followed by kvs, is the innermost map, below one level per outer group with attributes |
| OtelHandler.WrapSkipsEmpty | apps/sms-api/internal/logger/otel.go:195-198 | outer groups without attributes are not output |
| OtelHandler.GroupAddAttrs | apps/sms-api/internal/logger/otel.go:215-220 | a group keeps its name and existing attributes and gains the new ones after them |
| OtelHandler.ContextHandler.constructor | apps/sms-api/internal/logger/otel.go:22-32 | a handler starts with no attributes and no group |
| OtelHandler.ContextHandler.WithAttrs | apps/sms-api/internal/logger/otel.go:430-444 | the receiver and its buffer are unchanged; with a group open the copy's leaf group gains the attributes, otherwise the copy gets a fresh buffer holding the old entries followed by the new ones |
| OtelHandler.ContextHandler.WithGroup | apps/sms-api/internal/logger/otel.go:448-452 | the receiver is unchanged; the copy keeps the attributes and its chain is the new empty group in front of the old chain |
| OtelHandler.ContextHandler.ConvertRecord | apps/sms-api/internal/logger/otel.go:384-416 | the record keeps the time and message; its severity is the slog level plus the Debug offset; the handler's buffered attributes come first, then the record's attributes, wrapped in the open groups when there are any; with groups open and no record attributes only the first group holding attributes and those outside it are output |
| OtelHandler.SeverityLevels | apps/sms-api/internal/logger/otel.go:389-390 | slog Debug, Info, Warn and Error map to OpenTelemetry severities 5, 9, 13 and 17 |
| OtelHandler.RecordAttrsInnermost | apps/sms-api/internal/logger/otel.go:396-401 | with groups open, the record's attributes form the innermost group entry, below one level per outer group with attributes |
| RlogHandler.NewRlogHandler | apps/sms-api/internal/logger/rlog.go:22-27 | a new handler has no attributes and no group; missing options become empty options, given options are kept |
| RlogHandler.EnabledGate | apps/sms-api/internal/logger/rlog.go:29-34 | without options or a level every level is enabled; with a minimum level, exactly the levels at or above it are |
| RlogHandler.EnabledMonotone | apps/sms-api/internal/logger/rlog.go:29-34 | if a level passes the gate, every higher level passes too |
| RlogHandler.NewHandlerEnablesAll | apps/sms-api/internal/logger/rlog.go:22-34 | a handler built without options logs every level |
| RlogHandler.WithAttrs | apps/sms-api/internal/logger/rlog.go:96-101 | the copy keeps options and group and holds the old attributes followed by the new ones |
| RlogHandler.WithAttrsCompose | apps/sms-api/internal/logger/rlog.go:96-101 | adding two attribute lists one after the other equals adding their concatenation once |
| RlogHandler.WithGroup | apps/sms-api/internal/logger/rlog.go:103-111 | the copy keeps options and attributes; the group becomes the name, or "<old>.<name>" when a group was set |
| RlogHandler.WithGroupNests | apps/sms-api/internal/logger/rlog.go:103-111 | two nested groups on a fresh handler give "outer.inner" |
| RlogHandler.ResolveValue | apps/sms-api/internal/logger/rlog.go:115-146 | a group value becomes the map of its members' resolved values; a scalar never resolves to a map |
| RlogHandler.GroupMapKeys | apps/sms-api/internal/logger/rlog.go:134-140 | the flattened group map has exactly the members' keys |
| RlogHandler.GroupMapLastWins | apps/sms-api/internal/logger/rlog.go:134-140 | for a repeated key the map holds the value of the last member with that key |
| RlogHandler.OptionalPair | apps/sms-api/internal/logger/rlog.go:42-54 | a trace field is appended as a key/value pair exactly when its value is non-empty |
| RlogHandler.TraceArgs | apps/sms-api/internal/logger/rlog.go:40-55 | trace fields are added only for an API call with trace data; at most four pairs |
| RlogHandler.TraceArgsKeyed | apps/sms-api/internal/logger/rlog.go:40-55 | the trace arguments alternate string key and value |
| RlogHandler.AttrArgs | apps/sms-api/internal/logger/rlog.go:57-66 | each attribute contributes exactly one key/value pair |
| RlogHandler.AttrArgsAt | apps/sms-api/internal/logger/rlog.go:57-66 | pair i is the key of attribute i followed by its resolved value |
| RlogHandler.AttrArgsKeyed | apps/sms-api/internal/logger/rlog.go:57-66 | attribute arguments alternate string key and value |
| RlogHandler.AttrArgsAppend | apps/sms-api/internal/logger/rlog.go:57-66 | the arguments of two attribute lists concatenated are the concatenation of their arguments |
| RlogHandler.AttrArgsSnoc | apps/sms-api/internal/logger/rlog.go:58-60 | one loop step appends exactly the next attribute's pair |
| RlogHandler.SourceArgs | apps/sms-api/internal/logger/rlog.go:68-72 | source, line and func are added exactly when AddSource is on and the record has a program counter |
| RlogHandler.KeyedAppend | apps/sms-api/internal/logger/rlog.go:36-72 | concatenating two key/value argument lists keeps keys at even positions |
| RlogHandler.BaseArgs | apps/sms-api/internal/logger/rlog.go:36-72 | the argument count is trace fields plus two per persistent and per record attribute plus the source fields |
| RlogHandler.BaseArgsKeyed | apps/sms-api/internal/logger/rlog.go:36-72 | the assembled argument list alternates string key and value |
| RlogHandler.PrefixKeys | apps/sms-api/internal/logger/rlog.go:74-79 | every key (even position) is rewritten to "<group>.<key>" and every value is left unchanged |
| RlogHandler.Route | apps/sms-api/internal/logger/rlog.go:81-92 | Error at or above the error level, Warn from warn, Info from info, Debug below info; the four ranges partition the levels |
| RlogHandler.RouteMonotone | apps/sms-api/internal/logger/rlog.go:81-92 | a higher record level never goes to a less severe sink |
| RlogHandler.AppendAttrs | apps/sms-api/internal/logger/rlog.go:57-66 | the loop appends exactly the pairs of the attribute list |
| RlogHandler.BuildArgs | apps/sms-api/internal/logger/rlog.go:37-72 | the loop-built argument list equals the trace, persistent, record and source arguments in that order |
| RlogHandler.Handle | apps/sms-api/internal/logger/rlog.go:36-94 | the record goes to the sink its level selects with its message and the group-prefixed arguments |
| RlogHandler.GroupedKeyed | apps/sms-api/internal/logger/rlog.go:74-79 | prefixing keys keeps the key/value alternation |
| RlogHandler.RecordAttrAtEven | apps/sms-api/internal/logger/rlog.go:37-66 | each record attribute's key lands at an even position |
| RlogHandler.BaseRecordAttr | apps/sms-api/internal/logger/rlog.go:62-66 | record attribute j sits right after the trace and persistent arguments, key then resolved value |
| RlogHandler.GroupedPair | apps/sms-api/internal/logger/rlog.go:74-79 | after prefixing, the key at an even position is "<group>.<key>" and the following value is unchanged |
| RlogHandler.RecordKeysGrouped | apps/sms-api/internal/logger/rlog.go:36-94 | in the emitted arguments record attribute j appears as "<group>.<key>" followed by its resolved value |
| CustomField.SelectOptions | packages/customgradeexport/classes/course_export_helper.php:244 | the options text splits into at least one line and no option holds a newline |
| CustomField.OptionValue | packages/customgradeexport/classes/course_export_helper.php:251-259 | an option yields its trimmed text, or the trimmed part before the first bar; the value never holds a bar or surrounding whitespace |
| CustomField.SelectedOption | packages/customgradeexport/classes/course_export_helper.php:248-260 | an option is chosen exactly when the zero-based index is within the list, and it is that option's value |
| CustomField.DecodeCustomFieldValue | packages/customgradeexport/classes/course_export_helper.php:235-268 | a non-select field yields its stored value; a select field yields a value exactly when options exist and the 1-based intvalue is in range, and then the value of that option |
| CustomField.SelectOptionWithBar | packages/customgradeexport/classes/course_export_helper.php:253-257 | an option "VALUE\|Display" with a clean VALUE decodes to VALUE |
| CustomField.CmidPosition | packages/customgradeexport/classes/course_export_helper.php:211 | a position found holds a row about the module; no position means no row is about it |
| CustomField.KeyedByCmid | packages/customgradeexport/classes/course_export_helper.php:211 | the query answer keyed by module id: no two rows about one module, every kept row is a returned row, and every module with a row keeps one |
| CustomField.KeyedByCmidKeepsLast | packages/customgradeexport/classes/course_export_helper.php:211 | the last row returned for a module is the one kept |
| CustomField.GetCustomFieldData | packages/customgradeexport/classes/course_export_helper.php:188-226 | as written: no module ids give the empty map; otherwise the keyed query answer fills the map in order |
| CustomField.FieldMapOfDistinct | packages/customgradeexport/classes/course_export_helper.php:214-223 | over rows about distinct modules, each module's entry holds exactly its row's field and decoded value |
| CustomField.KeyedFieldMapSingle | packages/customgradeexport/classes/course_export_helper.php:211-223 | as written: a module with rows gets exactly one field, named by its last returned row, with that row's decoded value |
| CustomField.KeyedFieldMapModules | packages/customgradeexport/classes/course_export_helper.php:211-223 | as written: the map has an entry for exactly the modules that have a row |
| CustomField.SecondFieldLost | packages/customgradeexport/classes/course_export_helper.php:211-223 | as written, a module with an "examtype" row followed by a "weight" row has no "examtype" field, while the intended map keeps it |
| CustomField.GetCustomFieldDataAllFields | packages/customgradeexport/classes/course_export_helper.php:188-226 | corrected: no module ids give the empty map; otherwise every join row fills the map in order |
| CustomField.FieldMapModules | packages/customgradeexport/classes/course_export_helper.php:214-223 | the map has an entry for exactly the modules that have a row |
| CustomField.FieldMapFields | packages/customgradeexport/classes/course_export_helper.php:214-223 | corrected: a module's entry holds exactly the short names of all its rows |
| CustomField.FieldMapLastWins | packages/customgradeexport/classes/course_export_helper.php:214-223 | corrected: for a repeated module and short name the last row's decoded value is kept |
| CustomField.Lookup | packages/customgradeexport/classes/course_export_helper.php:166 | a found value is the map's entry; nothing is found when the module, the field or the value is missing |
| CourseExport.ParseExamtypeFromName | packages/customgradeexport/classes/course_export_helper.php:276-293 | 15P when the lower-cased name mentions "15p" or "thường xuyên"; else 1T for "1t" or "định kỳ"; else Thi for "thi"; else the empty type |
| CourseExport.ParseExamtypeIgnoresCase | packages/customgradeexport/classes/course_export_helper.php:278 | the name search gives the same type for a name and its lower-cased form |
| CourseExport.ResolveExamtype | packages/customgradeexport/classes/course_export_helper.php:164-171 | a truthy examtype field wins; without the field the type comes from the activity name |
| CourseExport.CustomFieldOverridesName | packages/customgradeexport/classes/course_export_helper.php:166-175 | a field set to some other truthy text puts the activity in no bucket, whatever its name says |
| CourseExport.CollectItemsDistinct | packages/customgradeexport/classes/course_export_helper.php:147-158 | the item map keys each course module once |
| CourseExport.CollectItemsOnlyFound | packages/customgradeexport/classes/course_export_helper.php:150-158 | only items with an instance and a course module are mapped, under that module's id |
| CourseExport.BucketBySound | packages/customgradeexport/classes/course_export_helper.php:164-176 | every item in a bucket comes from an entry filed under that bucket's type |
| CourseExport.BucketByComplete | packages/customgradeexport/classes/course_export_helper.php:164-176 | every entry filed under a type lands in that bucket |
| CourseExport.BucketSound | packages/customgradeexport/classes/course_export_helper.php:164-176 | every item in a bucket has that exam type as its resolved type |
| CourseExport.BucketComplete | packages/customgradeexport/classes/course_export_helper.php:164-176 | every mapped item whose resolved type is a bucket's type is in that bucket |
| CourseExport.BucketsPartition | packages/customgradeexport/classes/course_export_helper.php:131-178 | the three buckets together hold at most the mapped items |
| CourseExport.GradeItemsByExamType | packages/customgradeexport/classes/course_export_helper.php:127-179 | the buckets are the mapped items filed by resolved type, with custom-field data read only when some module was found |
| CourseExport.Numbered | packages/customgradeexport/classes/course_export_helper.php:341-349 | count headers, header i being the prefix and the two-digit number i + 1 |
| CourseExport.HeaderRow | packages/customgradeexport/classes/course_export_helper.php:331-361 | the header is eight fixed columns plus at least three numbered columns for each continuous-assessment type |
| CourseExport.HeaderRowShape | packages/customgradeexport/classes/course_export_helper.php:331-361 | TT, name and id; at least three 15P columns and three 1T columns; Thi-01, Thi-02, TKMH, Xếp loại, Ghi chú |
| CourseExport.NumberedSnoc | packages/customgradeexport/classes/course_export_helper.php:341-343 | one loop step appends the next numbered header |
| CourseExport.AppendNumbered | packages/customgradeexport/classes/course_export_helper.php:341-349 | the loop appends exactly the numbered headers 01 to count |
| CourseExport.BuildHeaders | packages/customgradeexport/classes/course_export_helper.php:331-361 | the header row built step by step equals the header row for the bucket sizes |
| CourseExport.StudentGrades | packages/customgradeexport/classes/course_export_helper.php:438-456 | the grades are the final grades that exist, in item order |
| CourseExport.GetClassification | packages/customgradeexport/classes/course_export_helper.php:493-510 | no score gives ""; otherwise XS from 9, G from 8, Khá from 7, TB from 5, Yếu below, each band exactly |
| CourseExport.ClassificationMonotone | packages/customgradeexport/classes/course_export_helper.php:493-510 | a higher score never gets a lower label |
| CourseExport.PaddedGrades | packages/customgradeexport/classes/course_export_helper.php:406-414 | count cells, cell i the i-th grade when the student has one and "" otherwise |
| CourseExport.StudentRow | packages/customgradeexport/classes/course_export_helper.php:393-429 | a student row has as many cells as the header, starts with the row number and always has a non-empty classification |
| CourseExport.BuildStudentRow | packages/customgradeexport/classes/course_export_helper.php:393-429 | the row is the three grade lists of the student looked up and laid out under the headers |
| CourseExport.AsText | packages/customgradeexport/classes/course_export_helper.php:530 | each header string becomes one text cell |
| CourseExport.HeaderCells | packages/customgradeexport/classes/course_export_helper.php:331-361 | the header cells are as many as the headers |
| CourseExport.SheetRowsAt | packages/customgradeexport/classes/course_export_helper.php:112-117 | row k of the student rows belongs to the k-th student and is numbered k + 1 |
| CourseExport.PrepareExportData | packages/customgradeexport/classes/course_export_helper.php:96-120 | the header row followed by one row per student in the given order |
| CourseExport.AppendStudentRows | packages/customgradeexport/classes/course_export_helper.php:112-117 | the loop appends one row per student, numbered from 1 |
| CourseExport.ExportRowsAligned | packages/customgradeexport/classes/course_export_helper.php:96-120 | every student row is as wide as the header and row k + 1 is numbered k + 1 |
| CourseExport.AppendPadded | packages/customgradeexport/classes/course_export_helper.php:407-414 | the padding loop appends exactly count grade-or-blank cells |
| CourseExport.Sum | packages/customgradeexport/classes/course_export_helper.php:470 | the sum of grades on the ten-point scale lies between 0 and ten times their number |
| CourseExport.Average | packages/customgradeexport/classes/course_export_helper.php:470-477 | the average of grades on the ten-point scale (0 for none) stays on that scale |
| CourseExport.Tkmh | packages/customgradeexport/classes/course_export_helper.php:467-485 | with every 15P, 1T and exam grade on the ten-point scale, the final score is on that scale too (the weights add up to one) |
| CourseExport.ClassRank | packages/customgradeexport/classes/course_export_helper.php:493-510 | the five labels of get_classification ranked 0 to 4, rank 0 for any text that is not one of the four named bands |
| CourseData.RowsOf | packages/coursegrades/classes/external/get_course_data.php:109-127 | a student's rows are at most their report items, keeping only graded quiz and assignment items |
| CourseData.RowsOfOnlyGradedModules | packages/coursegrades/classes/external/get_course_data.php:110-125 | every row comes from a quiz or assignment module item of that student's report |
| CourseData.RowsOfAllGradedModules | packages/coursegrades/classes/external/get_course_data.php:110-125 | every quiz or assignment module item of the report gives a row |
| CourseData.AppendReportRows | packages/coursegrades/classes/external/get_course_data.php:110-126 | the inner loop appends exactly the rows of one student's report |
| CourseData.CollectGradesData | packages/coursegrades/classes/external/get_course_data.php:103-128 | the rows of all students, student by student in enrolment order |
| CourseData.ModuleInfoOf | packages/coursegrades/classes/external/get_course_data.php:133-143 | a module entry keeps grade item id and module id and takes the examtype custom field of its module |
| CourseData.ModuleMapDistinct | packages/coursegrades/classes/external/get_course_data.php:131-144 | the module list keys each grade item once |
| CourseData.ModuleMapLastWins | packages/coursegrades/classes/external/get_course_data.php:131-144 | for a repeated grade item the last module row is kept |
| CourseData.ModuleMapKeys | packages/coursegrades/classes/external/get_course_data.php:131-144 | the module list has a grade item exactly when some module row has it |
| CourseData.BuildModuleList | packages/coursegrades/classes/external/get_course_data.php:131-144 | the loop builds exactly the module list |
| CourseData.StudentMapShape | packages/coursegrades/classes/external/get_course_data.php:146-157 | the student list keys each student once, under their id, with no grades yet |
| CourseData.BuildStudentList | packages/coursegrades/classes/external/get_course_data.php:146-157 | the loop builds exactly the student list |
| CourseData.GradeOf | packages/coursegrades/classes/external/get_course_data.php:162-171 | an attached grade carries the row's grade item and grade and the listed module's name |
| CourseData.JoinedAppend | packages/coursegrades/classes/external/get_course_data.php:159-173 | joining two runs of rows one after the other equals joining their concatenation |
| CourseData.JoinedOnlyListed | packages/coursegrades/classes/external/get_course_data.php:160 | a joined grade's module is listed and comes from one of that student's rows |
| CourseData.JoinGrades | packages/coursegrades/classes/external/get_course_data.php:159-173 | every student keeps their place and gets, in row order, the grades of their rows whose module is listed; rows of unlisted students are dropped |
| CourseData.JoinRow | packages/coursegrades/classes/external/get_course_data.php:160-172 | one row is appended to its own student's grades and to no one else's, and only when student and module are listed |
| CourseData.ModuleCmids | packages/coursegrades/classes/external/get_course_data.php:97 | the module id column in module order |
| CourseData.GetCourseData | packages/coursegrades/classes/external/get_course_data.php:68-192 | the modules in list order with exam types, and every enrolled student with the grades of their listed modules in report order |
| StudentGrades.TargetUser | packages/coursegrades/classes/external/get_student_grades.php:79-82 | user id 0 means the current user; any other id is kept |
| StudentGrades.MetadataOfSound | packages/coursegrades/classes/external/get_student_grades.php:124-142 | a metadata entry exists exactly for each loaded value that has a field, under the field's short name |
| StudentGrades.CollectMetadata | packages/coursegrades/classes/external/get_student_grades.php:122-142 | the loop skips values without a field and keeps the rest in order |
| StudentGrades.CollectCmids | packages/coursegrades/classes/external/get_student_grades.php:161-172 | the module ids collected are those of the quiz and assignment items that have one, in order |
| StudentGrades.ExamtypeFor | packages/coursegrades/classes/external/get_student_grades.php:191-197 | a grade has an exam type only for a non-zero module id whose examtype field is set |
| StudentGrades.EntryOf | packages/coursegrades/classes/external/get_student_grades.php:199-208 | a grade entry carries the item's module id (0 when unset), its raw grade and its module's exam type |
| StudentGrades.GradedModules | packages/coursegrades/classes/external/get_student_grades.php:186-189 | the kept items are report items that are quiz or assignment modules |
| StudentGrades.GradesForAreGradedModules | packages/coursegrades/classes/external/get_student_grades.php:177-213 | the grades are exactly the quiz and assignment items in report order; the course and category skip removes nothing else |
| StudentGrades.CollectGrades | packages/coursegrades/classes/external/get_student_grades.php:177-213 | the loop produces exactly the grade entries of the graded modules |
| StudentGrades.CourseDataFor | packages/coursegrades/classes/external/get_student_grades.php:151-158 | a course keeps its id and its metadata, and has no grades when the report has no user grades |
| StudentGrades.ProcessCourse | packages/coursegrades/classes/external/get_student_grades.php:116-215 | the try block produces the course's metadata and its graded-module entries |
| StudentGrades.CoursesForAppend | packages/coursegrades/classes/external/get_student_grades.php:103-220 | the courses of two runs of enrolments are the courses of each, one after the other |
| StudentGrades.FailingCourseDropsOnlyItself | packages/coursegrades/classes/external/get_student_grades.php:216-219 | a course whose reads throw is left out and every other course is unaffected |
| StudentGrades.OwnCoursesAllShown | packages/coursegrades/classes/external/get_student_grades.php:109-114 | a user looking at their own grades sees every enrolled course whose reads succeed |
| StudentGrades.OthersNeedViewall | packages/coursegrades/classes/external/get_student_grades.php:109-114 | another user's course appears only when the viewer has grade:viewall in it |
| StudentGrades.GetStudentGrades | packages/coursegrades/classes/external/get_student_grades.php:69-223 | a missing user fails the call; otherwise the answer is the target user with the visible, readable courses in enrolment order |
| TeacherCategories.ResolveUserId | packages/teachercourses/classes/external/get_teacher_categories.php:69-72 | user id 0 means the current user; any other id is kept |
| TeacherCategories.IsTeacher | packages/teachercourses/classes/external/get_teacher_categories.php:99-106 | the loop reports a teacher exactly when the user holds at least one of the four teacher capabilities in the course |
| TeacherCategories.CountedNames | packages/teachercourses/classes/external/get_teacher_categories.php:116-117 | a category's course names line up one to one with its course ids |
| TeacherCategories.GroupedExact | packages/teachercourses/classes/external/get_teacher_categories.php:95-124 | each category appears once, exactly when some counted course is in it, with those courses' ids and names in course order |
| TeacherCategories.GroupByCategory | packages/teachercourses/classes/external/get_teacher_categories.php:95-124 | the course loop builds exactly the grouping, skipping courses without a context or a teacher capability |
| TeacherCategories.PutTwice | packages/teachercourses/classes/external/get_teacher_categories.php:110-117 | creating a category entry and then updating it is the same as writing the updated entry |
| TeacherCategories.ParentName | packages/teachercourses/classes/external/get_teacher_categories.php:137-141 | the parent's name for a positive parent id that is found, "" otherwise |
| TeacherCategories.EntryOf | packages/teachercourses/classes/external/get_teacher_categories.php:143-156 | a category's entry keeps its id, name and parent, takes the parent's name ("" when top-level or not found), carries the tag-stripped description ("" when missing), and its course count equals the number of its course ids, which are the grouped ids |
| TeacherCategories.EntriesExact | packages/teachercourses/classes/external/get_teacher_categories.php:126-158 | an entry exists exactly for each grouped category whose record is found, built from that record and its courses |
| TeacherCategories.ListCategories | packages/teachercourses/classes/external/get_teacher_categories.php:126-158 | the loop produces exactly the entries of the found categories in grouping order |
| TeacherCategories.InsertByName | packages/teachercourses/classes/external/get_teacher_categories.php:161-163 | inserting keeps every entry and adds exactly the new one |
| TeacherCategories.SortByName | packages/teachercourses/classes/external/get_teacher_categories.php:161-163 | sorting is a permutation of the entries |
| TeacherCategories.InsertByNameSorted | packages/teachercourses/classes/external/get_teacher_categories.php:161-163 | inserting into a name-ordered list keeps it ordered |
| TeacherCategories.SortByNameSorted | packages/teachercourses/classes/external/get_teacher_categories.php:161-163 | the sorted list is ordered by name under byte-wise comparison |
| TeacherCategories.GetTeacherCategories | packages/teachercourses/classes/external/get_teacher_categories.php:59-174 | fails exactly when the user does not exist; otherwise the user, the name-sorted categories and their count |
| TemplateManager.ExtForMime | packages/customgradeexport/classes/template_manager.php:128-136 | a Word upload is saved as docx, an xlsx spreadsheet as xlsx and the old Excel type as xls |
| TemplateManager.CleanAlphanumExt | packages/customgradeexport/classes/template_manager.php:139 | cleaning keeps only ASCII letters, digits, '_' and '-' and never lengthens the name |
| TemplateManager.CleanAlphanumExtIdempotent | packages/customgradeexport/classes/template_manager.php:139 | cleaning a cleaned name changes nothing |
| TemplateManager.CleanOfClean | packages/customgradeexport/classes/template_manager.php:139 | a name made only of allowed characters is left as it is |
| TemplateManager.InitialId | packages/customgradeexport/classes/template_manager.php:139-144 | the first id tried is never empty, is at most 50 characters when uniqid() is, and is either the cleaned name or uniqid() |
| TemplateManager.SuffixedId | packages/customgradeexport/classes/template_manager.php:151-157 | an id retried after a collision is still made of PARAM_ALPHANUMEXT characters, and is longer than the cleaned name |
| TemplateManager.SuffixedIdInjective | packages/customgradeexport/classes/template_manager.php:151-157 | different collision counters give different ids |
| TemplateManager.MatchAt | packages/customgradeexport/classes/template_manager.php:57 | the id pattern matches at the start of a text only when the text is "<kind>_", a non-empty dot-free id, ".", and a template extension to the end |
| TemplateManager.MatchFileName | packages/customgradeexport/classes/template_manager.php:57-59 | a text of that shape matches with exactly its id and extension |
| TemplateManager.MatchFrom | packages/customgradeexport/classes/template_manager.php:57 | the search from a position on finds a non-empty dot-free id and a template extension whose file name ends the text |
| TemplateManager.ParseTemplateFile | packages/customgradeexport/classes/template_manager.php:53-59 | a listed file reads as a non-empty dot-free id and a template extension, and its name ends with "<kind>_<id>.<ext>" |
| TemplateManager.MatchFromNone | packages/customgradeexport/classes/template_manager.php:57 | the search from a position fails exactly when the pattern matches at no later position |
| TemplateManager.MatchFromLeftmost | packages/customgradeexport/classes/template_manager.php:57-59 | the search from a position returns the first later position where the pattern matches |
| TemplateManager.ParseTemplateFileNone | packages/customgradeexport/classes/template_manager.php:57 | a file is not read as a template exactly when the unanchored pattern matches at no position |
| TemplateManager.ParseTemplateFileLeftmost | packages/customgradeexport/classes/template_manager.php:57-59 | the id and extension are those of the leftmost position where the pattern matches |
| TemplateManager.LaterMatchExample | packages/customgradeexport/classes/template_manager.php:48-59 | "quiz_old.quiz_new.xlsx", which the glob lists, is read as id "new" with extension "xlsx" |
| TemplateManager.ParseFileName | packages/customgradeexport/classes/template_manager.php:57-59 | a file the store writes for a dot-free id reads back as exactly that id and extension |
| TemplateManager.SavedIdsListable | packages/customgradeexport/classes/template_manager.php:139-157 | every id save_template can choose is dot-free and non-empty, so get_templates lists it |
| TemplateManager.FormatOfExt | packages/customgradeexport/classes/template_manager.php:286-294 | xls and xlsx are excel, docx is word, anything else is "" |
| TemplateManager.TemplateStore.TemplatePath | packages/customgradeexport/classes/template_manager.php:82-97 | the xlsx file of the id if present, else the xls file, else the docx file, else none; a path found is an existing file |
| TemplateManager.TemplateStore.TemplateExt | packages/customgradeexport/classes/template_manager.php:82-97 | the extension of the file found, "" exactly when none is found |
| TemplateManager.TemplateStore.TemplateFormat | packages/customgradeexport/classes/template_manager.php:278-295 | "" exactly when no file is found; excel exactly when an xlsx or xls file is found |
| TemplateManager.TemplateStore.TemplateName | packages/customgradeexport/classes/template_manager.php:247-257 | the stored name of the template, or its id when none is stored |
| TemplateManager.TemplateStore.TemplatesOfKeys | packages/customgradeexport/classes/template_manager.php:45-73 | an id is listed exactly when some file of the listing is read, by the leftmost match of the pattern, with that id |
| TemplateManager.TemplateStore.TemplatesOfSnocKey | packages/customgradeexport/classes/template_manager.php:53-70 | one more listed file adds its id when it is read as a template and keeps every earlier id |
| TemplateManager.TemplateStore.GetTemplates | packages/customgradeexport/classes/template_manager.php:45-73 | the loop builds the template map from the listing, a later file of the same id replacing an earlier one |
| TemplateManager.TemplateStore.HasTemplatesIff | packages/customgradeexport/classes/template_manager.php:265-269 | there are templates exactly when some listed file is read as a template by the unanchored pattern |
| TemplateManager.TemplateStore.CandidateFresh | packages/customgradeexport/classes/template_manager.php:151-157 | the path of counter n differs from the paths of every earlier counter |
| TemplateManager.TemplateStore.CandidatesStep | packages/customgradeexport/classes/template_manager.php:151-157 | each loop pass adds the path of one more counter |
| TemplateManager.TemplateStore.CandidatesCount | packages/customgradeexport/classes/template_manager.php:151-157 | after n passes n - 1 distinct paths have been tried, so the loop ends |
| TemplateManager.TemplateStore.FreeId | packages/customgradeexport/classes/template_manager.php:146-157 | the chosen path is free; it is the initial id or, when that is taken, the first free "<name>_k" with every earlier "<name>_j" taken |
| TemplateManager.TemplateStore.SaveTemplate | packages/customgradeexport/classes/template_manager.php:107-166 | a failed upload, a disallowed MIME type or a failed move change nothing and give false; otherwise exactly one new file is added under a free id and its name is recorded |
| TemplateManager.TemplateStore.DeleteTemplate | packages/customgradeexport/classes/template_manager.php:175-191 | succeeds exactly when a template file is found and unlinked, then removes that file and its name; otherwise nothing changes |
| TemplateManager.SavedTemplateFound | packages/customgradeexport/classes/template_manager.php:82-97 | a stored template with a dot-free id is found by get_template_path and read back by get_templates |
| TemplateManager.TemplateStore.constructor | packages/customgradeexport/classes/template_manager.php:26-36 | the store starts with the given directory, files and names |
| TemplateProcessor.TemplatesOfEntries | packages/customgradeexport/classes/template_manager.php:53-70 | every template listed comes from a file of the listing, with its path in the template directory |
| TemplateProcessor.LegacyTemplatePath | packages/customgradeexport/classes/template_processor.php:28-40 | no path exactly when there are no templates of the kind |
| TemplateProcessor.LegacyTemplatePathListed | packages/customgradeexport/classes/template_processor.php:37-39 | the path returned is that of a listed template file in the template directory |
| TemplateProcessor.HasTemplateIff | packages/customgradeexport/classes/template_processor.php:48-51 | has_template agrees with has_templates: some listed file is read as a template of the kind by the unanchored pattern |
| TemplateProcessor.QuizKeysDistinct | packages/customgradeexport/classes/template_processor.php:61-84 | no variable is offered twice for a quiz |
| TemplateProcessor.AssignKeysDistinct | packages/customgradeexport/classes/template_processor.php:85-101 | no variable is offered twice for an assignment |
| TemplateProcessor.AvailableVariables | packages/customgradeexport/classes/template_processor.php:59-105 | the four common variables come first, then the quiz or assignment variables; any other kind gets the common ones alone; no duplicates |
| ExcelTemplate.RowAt | packages/customgradeexport/classes/excel_template_processor.php:81-82 | a row past the sheet's last row reads as empty; otherwise the row itself |
| ExcelTemplate.HighestRow | packages/customgradeexport/classes/excel_template_processor.php:75 | the highest row is the number of rows, and 1 for an empty sheet |
| ExcelTemplate.Width | packages/customgradeexport/classes/excel_template_processor.php:76 | the highest column covers every row's cells, and is reached by some row when past column A |
| ExcelTemplate.ColumnName | packages/customgradeexport/classes/excel_template_processor.php:80 | column letters are made of capital letters only |
| ExcelTemplate.ColumnIndexOfName | packages/customgradeexport/classes/excel_template_processor.php:80 | column letters and column numbers correspond one to one |
| ExcelTemplate.PhpIncrement | packages/customgradeexport/classes/excel_template_processor.php:80 | PHP's string increment keeps a column name a column name |
| ExcelTemplate.PhpIncrementNext | packages/customgradeexport/classes/excel_template_processor.php:80 | incrementing a column's letters gives the next column's letters, "Z" carrying to "AA" |
| ExcelTemplate.AsWrittenColumns | packages/customgradeexport/classes/excel_template_processor.php:80 | the column loop with its string comparison runs at most as many steps as allowed |
| ExcelTemplate.ColumnLoopStopsEarly | packages/customgradeexport/classes/excel_template_processor.php:80 | with highest column "AB" the loop visits column A only |
| ExcelTemplate.ColumnLoopOverruns | packages/customgradeexport/classes/excel_template_processor.php:80 | with highest column "Z" the loop goes on to column "AA" |
| ExcelTemplate.SheetColumns | packages/customgradeexport/classes/excel_template_processor.php:77-80 | the intended columns: exactly the sheet's width, column i named by its letters |
| ExcelTemplate.SheetColumnsDistinct | packages/customgradeexport/classes/excel_template_processor.php:77-80 | the intended loop visits no column twice |
| ExcelTemplate.Placeholder | packages/customgradeexport/classes/excel_template_processor.php:87 | a placeholder is the key wrapped in "${" and "}" |
| ExcelTemplate.ReplaceVars | packages/customgradeexport/classes/excel_template_processor.php:86-88 | a text without "${" is left unchanged by the replacements, and so is any text when each value is its own placeholder |
| ExcelTemplate.PlainTextHasNoPlaceholder | packages/customgradeexport/classes/excel_template_processor.php:87 | one `str_replace` of a placeholder leaves a text without "${" as it is, whatever the value |
| ExcelTemplate.ReplaceCanLeavePlaceholder | packages/customgradeexport/classes/excel_template_processor.php:86-88 | replacing in order can join text into a new placeholder, so placeholders may remain |
| ExcelTemplate.ReplaceCell | packages/customgradeexport/classes/excel_template_processor.php:84-90 | only text cells are rewritten; numbers and blanks stay |
| ExcelTemplate.ReplacedRow | packages/customgradeexport/classes/excel_template_processor.php:80-91 | each cell of a row is replaced independently, the row keeps its length |
| ExcelTemplate.Replaced | packages/customgradeexport/classes/excel_template_processor.php:73-93 | replace_variables rewrites every cell of every row and keeps the sheet's shape |
| ExcelTemplate.ReplacedKeepsPlainCells | packages/customgradeexport/classes/excel_template_processor.php:84-90 | numbers, blanks and text without "${" survive replacement unchanged |
| ExcelTemplate.TemplateRowFrom | packages/customgradeexport/classes/excel_template_processor.php:151-166 | the search result is the first row from the start with a placeholder cell, or none when no later row has one |
| ExcelTemplate.TemplateRow | packages/customgradeexport/classes/excel_template_processor.php:151-166 | find_template_row gives the first row holding a "${" text cell, and none exactly when no row holds one |
| ExcelTemplate.Padded | packages/customgradeexport/classes/excel_template_processor.php:229 | rows written below the sheet extend it with empty rows and keep every existing row |
| ExcelTemplate.Overlay | packages/customgradeexport/classes/excel_template_processor.php:133-138 | a data row written from column A replaces the row's first cells and keeps the cells after them |
| ExcelTemplate.WithCell | packages/customgradeexport/classes/excel_template_processor.php:136 | setCellValue changes one cell of one row and no other row |
| ExcelTemplate.RowAtWithRow | packages/customgradeexport/classes/excel_template_processor.php:226-231 | writing a data row changes that row alone |
| ExcelTemplate.WithCellNext | packages/customgradeexport/classes/excel_template_processor.php:227-231 | writing the next cell of a row extends the data written by one cell |
| ExcelTemplate.AppendedLast | packages/customgradeexport/classes/excel_template_processor.php:225-233 | appending one more table row writes it below the rows appended before |
| ExcelTemplate.OverlayEmpty | packages/customgradeexport/classes/excel_template_processor.php:133-138 | data written into an empty row is the data itself |
| ExcelTemplate.AppendedRows | packages/customgradeexport/classes/excel_template_processor.php:221-234 | appended below the last row, table row i lands at row start + i, rows above stay and no other row is written |
| ExcelTemplate.DataRows | packages/customgradeexport/classes/excel_template_processor.php:118 | the data rows are the table without its header row |
| ExcelTemplate.FirstDataRowLost | packages/customgradeexport/classes/excel_template_processor.php:118-142 | as written, the row removed at the end is the one holding the first data row |
| ExcelTemplate.OnlyStudentLost | packages/customgradeexport/classes/excel_template_processor.php:118-142 | as written, a one-student export through a one-row template ends with an empty sheet |
| ExcelTemplate.InsertedAsWritten | packages/customgradeexport/classes/excel_template_processor.php:102-143 | as written, with a template row: the rows above it stay, and with data rows the sheet gains two rows fewer than there are data rows (the template row and one data row are both gone); with none, it loses the template row |
| ExcelTemplate.InsertedKeepingData | packages/customgradeexport/classes/excel_template_processor.php:102-143 | corrected, with a template row: the rows above it stay, and the template row is replaced by exactly the data rows (removed when there are none) |
| ExcelTemplate.DataRowsKept | packages/customgradeexport/classes/excel_template_processor.php:102-143 | corrected: every data row lands in the sheet in order from the template row, rows above stay and rows below move down past the data |
| ExcelTemplate.WriterFor | packages/customgradeexport/classes/excel_template_processor.php:245-251 | the Excel 2007 writer is chosen exactly when the file name ends in ".xlsx" |
| ExcelTemplate.MimeTypeOf | packages/customgradeexport/classes/excel_template_processor.php:245-251 | each writer sends its own MIME type |
| ExcelTemplate.DownloadFor | packages/customgradeexport/classes/excel_template_processor.php:242-261 | the download keeps the file name and sends the MIME type of the writer chosen by the extension |
| ExcelTemplate.Worksheet.constructor | packages/customgradeexport/classes/excel_template_processor.php:52-53 | the worksheet holds the template's rows |
| ExcelTemplate.Worksheet.SetCellValue | packages/customgradeexport/classes/excel_template_processor.php:136 | the sheet after setCellValue is the old one with that cell set |
| ExcelTemplate.Worksheet.InsertNewRowBefore | packages/customgradeexport/classes/excel_template_processor.php:125 | an empty row is inserted and later rows move down |
| ExcelTemplate.Worksheet.RemoveRow | packages/customgradeexport/classes/excel_template_processor.php:142 | the row is dropped and later rows move up |
| ExcelTemplate.Worksheet.ReplaceInRow | packages/customgradeexport/classes/excel_template_processor.php:80-91 | one row's text cells are rewritten, every other row unchanged |
| ExcelTemplate.Worksheet.ReplaceVariables | packages/customgradeexport/classes/excel_template_processor.php:73-93 | the sheet becomes the replaced sheet, visiting every column of every row once |
| ExcelTemplate.Worksheet.RowHasPlaceholder | packages/customgradeexport/classes/excel_template_processor.php:157-162 | the scan of one row finds a placeholder exactly when the row has a "${" text cell |
| ExcelTemplate.Worksheet.FindTemplateRow | packages/customgradeexport/classes/excel_template_processor.php:151-166 | the scan returns the first row holding a placeholder, none when there is none, and changes nothing |
| ExcelTemplate.Worksheet.WriteRow | packages/customgradeexport/classes/excel_template_processor.php:133-138 | one data row written cell by cell from column A |
| ExcelTemplate.Worksheet.AppendTableData | packages/customgradeexport/classes/excel_template_processor.php:221-234 | the table's rows are written one per row from the start row down |
| ExcelTemplate.Worksheet.FillDataRows | packages/customgradeexport/classes/excel_template_processor.php:121-139 | the data rows are written from the template row on, a fresh row inserted for each after the first |
| ExcelTemplate.Worksheet.InsertTableData | packages/customgradeexport/classes/excel_template_processor.php:102-143 | as written: fill from the template row, then remove the template row (or append below when there is none) |
| ExcelTemplate.Worksheet.InsertTableDataKeepingData | packages/customgradeexport/classes/excel_template_processor.php:102-143 | corrected: the template row is removed only when no data row was written over it |
| ExcelTemplate.Worksheet.ExportFromTemplate | packages/customgradeexport/classes/excel_template_processor.php:41-65 | as written: missing library and missing template file are the two errors and leave the sheet; otherwise variables are replaced, a non-empty table goes through `insert_table_data` as written (losing the first data row under a template row) and the download is named |
| ExcelTemplate.Worksheet.ExportFromTemplateKeepingData | packages/customgradeexport/classes/excel_template_processor.php:41-65 | corrected: the same errors and download, with the table inserted so that every data row is kept |
| ExcelTemplate.FillStep | packages/customgradeexport/classes/excel_template_processor.php:123-138 | one more data row, inserted below the last written, extends the filled block |
| ExcelTemplate.RowWrittenIntoBlank | packages/customgradeexport/classes/excel_template_processor.php:125-137 | a data row written into a freshly inserted empty row becomes that row |
| DocxExporter.PlaceholderForColumn | packages/customgradeexport/classes/docx_exporter.php:190-210 | every column gets a non-empty placeholder name |
| DocxExporter.FixedPlaceholderName | packages/customgradeexport/classes/docx_exporter.php:192-209 | the first fourteen columns take the fixed names, in order |
| DocxExporter.FixedPlaceholderPosition | packages/customgradeexport/classes/docx_exporter.php:192-207 | fixed name i is the quiz template variable at position i + 4 |
| DocxExporter.FixedPlaceholderShape | packages/customgradeexport/classes/docx_exporter.php:192-207 | no fixed name starts with 'c' or holds '#' |
| DocxExporter.FixedPlaceholder | packages/customgradeexport/classes/docx_exporter.php:190-210 | the placeholder of a fixed column is a quiz variable in column order and cannot be confused with a "col" name |
| DocxExporter.FixedPlaceholderQuizKey | packages/customgradeexport/classes/docx_exporter.php:192-207 | the fixed names are the keys of the quiz template's row variables, in the same order |
| DocxExporter.FixedPlaceholderDocumented | packages/customgradeexport/classes/docx_exporter.php:192-207 | each fixed placeholder is a variable the quiz template documents |
| DocxExporter.PlaceholderInjective | packages/customgradeexport/classes/docx_exporter.php:190-210 | different columns get different placeholders, fixed or "col" + index |
| DocxExporter.PlaceholderHasNoHash | packages/customgradeexport/classes/docx_exporter.php:190-210 | no placeholder contains the '#' that precedes a clone number |
| DocxExporter.DocTable | packages/customgradeexport/classes/docx_exporter.php:90-108 | one table row per data row and one cell per value, the first row alone styled as header |
| DocxExporter.AddRow | packages/customgradeexport/classes/docx_exporter.php:93-105 | the cells of one row, all in the header style or all in the data style |
| DocxExporter.ExportTable | packages/customgradeexport/classes/docx_exporter.php:47-120 | without the Word library the export fails with its message; otherwise the titled document with the export time and the data table |
| DocxExporter.VariableOps | packages/customgradeexport/classes/docx_exporter.php:143-145 | one setValue per variable, in order, with that variable's name and value |
| DocxExporter.CellTargetInjective | packages/customgradeexport/classes/docx_exporter.php:161-163 | different cells of different clones are different template variables |
| DocxExporter.RowOpsLast | packages/customgradeexport/classes/docx_exporter.php:160-166 | one more header column adds that column's cell when the row has it |
| DocxExporter.RowOpsNext | packages/customgradeexport/classes/docx_exporter.php:160-166 | the loop over the header adds the next column's cell exactly when the row has that column |
| DocxExporter.RowOpsByExact | packages/customgradeexport/classes/docx_exporter.php:159-166 | a data row sets exactly the cells it has among the header's columns |
| DocxExporter.RowOpsExact | packages/customgradeexport/classes/docx_exporter.php:159-166 | with the template's naming, a data row sets exactly its cells among the header's columns |
| DocxExporter.FillCellFront | packages/customgradeexport/classes/docx_exporter.php:157-168 | the clones of the earlier data rows are unchanged by one more data row |
| DocxExporter.FillOpsLast | packages/customgradeexport/classes/docx_exporter.php:157-168 | one more data row adds exactly the cells of that row's clone |
| DocxExporter.FillOpsSound | packages/customgradeexport/classes/docx_exporter.php:157-168 | every value set while filling is a cell of some clone |
| DocxExporter.FillOpsComplete | packages/customgradeexport/classes/docx_exporter.php:157-168 | every cell of every clone is set while filling |
| DocxExporter.FillOpsExact | packages/customgradeexport/classes/docx_exporter.php:157-168 | filling sets, for each data row r and header column c the row has, the variable placeholder#r to the row's value, and nothing else |
| DocxExporter.TableOpsShape | packages/customgradeexport/classes/docx_exporter.php:148-173 | without data rows nothing is cloned; with them the firstname row is cloned once per data row and then only values are set |
| DocxExporter.FillRow | packages/customgradeexport/classes/docx_exporter.php:159-166 | the inner loop sets, for each header column the row has a value for, the cell named by that column's placeholder and the row number to the value, in column order, and skips columns past the row's end |
| DocxExporter.FillTable | packages/customgradeexport/classes/docx_exporter.php:157-168 | the outer loop numbers the clones from 1 and fills each from its data row |
| DocxExporter.ExportFromTemplate | packages/customgradeexport/classes/docx_exporter.php:130-182 | the two error messages of a missing library and a missing template; otherwise the variables are set, then the table rows are cloned and filled when the template has the row block |
| QuizExport.StateDisplay | packages/customgradeexport/classes/quiz_export_helper.php:260-270 | the four known states get their labels; a label is shown exactly for its state (or a state already spelt like it); any other state is shown unchanged |
| QuizExport.QuizRow | packages/customgradeexport/classes/quiz_export_helper.php:231-246 | an attempt's row is exactly as wide as the header |
| QuizExport.QuizRowCells | packages/customgradeexport/classes/quiz_export_helper.php:217-246 | the name and email cells are the user's; state label; "-" for a missing grade; "0%" when the maximum is not positive; time taken only when both times are set and then the duration finish minus start; "-" for unset times |
| QuizExport.QuizRows | packages/customgradeexport/classes/quiz_export_helper.php:215-249 | one row per attempt, in the order of the query |
| QuizExport.PrepareExportData | packages/customgradeexport/classes/quiz_export_helper.php:191-252 | the header row first, then one row per attempt in order; 1 + attempts rows, each as wide as the header |
| AssignExport.SubmissionStatus | packages/customgradeexport/classes/assign_export_helper.php:268-286 | no submission or a new one shows "No submission"; submitted, draft and reopened their labels; any other status unchanged |
| AssignExport.FeedbackComments | packages/customgradeexport/classes/assign_export_helper.php:294-312 | no feedback without a grade or without a feedback record |
| AssignExport.AssignRow | packages/customgradeexport/classes/assign_export_helper.php:239-254 | a participant's row is exactly as wide as the header |
| AssignExport.AssignRowCells | packages/customgradeexport/classes/assign_export_helper.php:205-254 | organisation fields empty without a record; a percentage exactly when the grade is set and the maximum is positive; no grade means "-" grade and marking time and no grader or feedback; the status cell is the submission's label |
| AssignExport.AssignRows | packages/customgradeexport/classes/assign_export_helper.php:205-257 | one row per participant, in the order listed |
| AssignExport.PrepareExportData | packages/customgradeexport/classes/assign_export_helper.php:168-260 | the header row first, then one row per participant in order, so only the header without participants; every row as wide as the header |
| QuizExport.Percentage | packages/customgradeexport/classes/quiz_export_helper.php:218-219 | the percentage cell always ends in "%", and is "0%" when the quiz's maximum grade is not positive |
| QuizExport.TimeTaken | packages/customgradeexport/classes/quiz_export_helper.php:222-226 | the time taken is empty unless the attempt has both a start and a finish time |
| AssignExport.AssignPercentage | packages/customgradeexport/classes/assign_export_helper.php:220-225 | the percentage is empty exactly when there is no grade or the maximum grade is not positive, and otherwise ends in "%" |
| DateConvert.ShapedIsTrimmed | apps/web/src/common/index.ts:10-16 | a text of either date shape is unchanged by trimming |
| DateConvert.DmySplit | apps/web/src/common/index.ts:16-17 | splitting a "dd/mm/yyyy" text on '/' gives its day, month and year fields |
| DateConvert.IsoSplit | apps/web/src/common/index.ts:37-38 | splitting a "yyyy-mm-dd" text on '-' gives its year, month and day fields |
| DateConvert.ToIsoDate | apps/web/src/common/index.ts:2-22 | "" stays ""; an ISO date is kept (trimmed); "dd/mm/yyyy" becomes "yyyy-mm-dd" with the same fields; any other text is only trimmed |
| DateConvert.ToDdMmYyyy | apps/web/src/common/index.ts:26-44 | "" stays ""; "dd/mm/yyyy" is kept (trimmed); an ISO date becomes "dd/mm/yyyy" with the same fields; any other text is only trimmed |
| DateConvert.IsoOfFields | apps/web/src/common/index.ts:18 | joining year, month and day with '-' gives an ISO-shaped text with those fields |
| DateConvert.DmyOfFields | apps/web/src/common/index.ts:39 | joining day, month and year with '/' gives a displayed date with those fields |
| DateConvert.DisplayRoundTrip | apps/web/src/common/index.ts:2-44 | a displayed date converted to ISO and back is the same date text |
| DateConvert.IsoRoundTrip | apps/web/src/common/index.ts:2-44 | an ISO date converted for display and back is the same date text |
| DateConvert.ToIsoDateIdempotent | apps/web/src/common/index.ts:2-22 | normalising to ISO twice is normalising once |
| DateConvert.ToDdMmYyyyIdempotent | apps/web/src/common/index.ts:26-44 | converting for display twice is converting once |
| DatePicker.DaysInMonth | apps/web/src/components/date-picker.tsx:48-55 | every month has 28 to 31 days |
| DatePicker.FormatDate | apps/web/src/components/date-picker.tsx:17-27 | no date renders as "" and every date as a non-empty text |
| DatePicker.MatchDmy | apps/web/src/components/date-picker.tsx:40-41 | a match captures a day and month of at most two digits, and a year below 100 when two year digits are asked for |
| DatePicker.PivotYear | apps/web/src/components/date-picker.tsx:69-70 | two-digit years 00-30 stand for 2000-2030 and 31-99 for 1931-1999 |
| DatePicker.ParseDate | apps/web/src/components/date-picker.tsx:36-86 | nothing for ""; a d/m/yyyy match gives that date exactly when it is a real date; a d/m/yy match gives the pivoted date under the same check; every other case is the free-form parse |
| DatePicker.StrictMatch | apps/web/src/components/date-picker.tsx:40-46 | a strict "dd/mm/yyyy" text matches with its day, month and year fields |
| DatePicker.Pad2OfTwoDigits | apps/web/src/components/date-picker.tsx:22-23 | two decimal digits are the two-digit rendering of their value |
| DatePicker.FormatParseRoundTrip | apps/web/src/components/date-picker.tsx:17-58 | reading a strict real date whose year has no leading zero and rendering it gives the text back |
| DatePicker.FormatDropsYearZeros | apps/web/src/components/date-picker.tsx:17-58 | a real date whose year is written with a leading zero is read, but rendered differently |
| DatePicker.ZeroLedYearExample | apps/web/src/components/date-picker.tsx:17-58 | "01/01/0100" is a strict real date with a leading-zero year, so the round trip fails on it |
| DatePicker.DigitsOf | apps/web/src/components/date-picker.tsx:91 | the digits of a text are no longer than the text and are all digits |
| DatePicker.DigitsOfConcat | apps/web/src/components/date-picker.tsx:91 | taking digits distributes over concatenation |
| DatePicker.DigitsOfDigits | apps/web/src/components/date-picker.tsx:91 | a text of digits keeps all of them |
| DatePicker.TwoFieldMask | apps/web/src/components/date-picker.tsx:99-100 | three or four digits are masked with one '/' after the day, keeping the digits |
| DatePicker.ThreeFieldMask | apps/web/src/components/date-picker.tsx:101 | five to eight digits are masked with '/' after the day and the month, keeping the digits |
| DatePicker.MaskShape | apps/web/src/components/date-picker.tsx:89-102 | the mask keeps exactly the first min(8, n) digits in order; it is at most ten characters with '/' only at 2 and 5 and only when a digit follows |
| DatePicker.MaskIdempotent | apps/web/src/components/date-picker.tsx:89-102 | masking a masked text changes nothing |
| DatePicker.CountDigitsPrefix | apps/web/src/components/date-picker.tsx:111-113 | a prefix never has more digits than the text |
| DatePicker.FirstDigit | apps/web/src/components/date-picker.tsx:127-129 | the position of the first digit, with no digit before it |
| DatePicker.CountDigitsStep | apps/web/src/components/date-picker.tsx:119-126 | each character of the scan adds one to the count exactly when it is a digit |
| DatePicker.GetCursorPosition | apps/web/src/components/date-picker.tsx:105-138 | the cursor lies in [0, length of the masked text]; right after the masked digit that matches the digits typed before the cursor, past the end when there are not that many, and one place before the first digit when none were typed |
| DatePicker.ValidateDateFormatIff | apps/web/src/components/date-picker.tsx:141-155 | the format message exactly for a text that is not strict "dd/mm/yyyy"; no error exactly for a strict text that is a real date or that the free-form parse accepts |
| DatePicker.IsLeapYear | apps/web/src/components/date-picker.tsx:48-55 | the calendar that decides whether a day exists in a month: a leap year is divisible by 4, and a century year is leap exactly when divisible by 400 |
| DatePicker.ApplyDateMask | apps/web/src/components/date-picker.tsx:89-102 | the masked text is at most ten characters, each a digit or '/' |
| DatePicker.ValidateDateFormat | apps/web/src/components/date-picker.tsx:141-155 | any error is either the format message for the field or the invalid-date message |
| ImportStudents.RowsWithContent | apps/web/src/components/import-students-dialog.tsx:359-366 | only rows with a non-blank cell are kept, each taken from the input |
| ImportStudents.RowsWithContentExact | apps/web/src/components/import-students-dialog.tsx:359-366 | a row is kept exactly when it has a non-blank cell; rows that all have content are kept as they are |
| ImportStudents.DataRows | apps/web/src/components/import-students-dialog.tsx:357-366 | the data rows are rows from the third on, each with content |
| ImportStudents.HeaderRow | apps/web/src/components/import-students-dialog.tsx:369 | the field names are the second row, one per cell |
| ImportStudents.CellAt | apps/web/src/components/import-students-dialog.tsx:376 | an absent, null or undefined cell reads as ''; any other cell is kept, false and 0 included |
| ImportStudents.NormalizeBoolean | apps/web/src/components/import-students-dialog.tsx:379-396 | a yes/no text becomes true exactly when it reads "có" or "true" and false exactly when it reads "không" or "false", otherwise ''; a value that is not text is kept |
| ImportStudents.BlankReadsNeither | apps/web/src/components/import-students-dialog.tsx:384-394 | an empty text reads neither as yes nor as no |
| ImportStudents.NormalizeBlank | apps/web/src/components/import-students-dialog.tsx:394 | an empty yes/no cell stays empty |
| ImportStudents.NormalizeBooleanIdempotent | apps/web/src/components/import-students-dialog.tsx:379-396 | normalising a yes/no cell twice is normalising it once |
| ImportStudents.ChildrenInfos | apps/web/src/components/import-students-dialog.tsx:398-412 | the children cell is always an array: the parsed one when the text is not blank and parses to an array, the empty array otherwise |
| ImportStudents.KindOf | apps/web/src/components/import-students-dialog.tsx:371-422 | a header is a yes/no field, the children field or a date field exactly when it is listed as such |
| ImportStudents.StudentOfBy | apps/web/src/components/import-students-dialog.tsx:373-427 | building a record assigns each header the dialog's value for its column |
| ImportStudents.LastIndex | apps/web/src/components/import-students-dialog.tsx:375 | the last column holding a header |
| ImportStudents.StudentByExact | apps/web/src/components/import-students-dialog.tsx:374-425 | a record built by assignment has each header once, exactly the row's headers, holding the value of the last column with that header |
| ImportStudents.StudentOfExact | apps/web/src/components/import-students-dialog.tsx:373-427 | a record has a property for exactly the row's headers, each once, holding the value of the last column with that header: normalised yes/no, children array, ISO date for non-blank date texts |
| ImportStudents.BuildStudent | apps/web/src/components/import-students-dialog.tsx:374-426 | the loop over the headers builds the record in which each header, taken in column order, is set to its column's converted cell, a repeated header keeping the last column's value |
| ImportStudents.BuildStudents | apps/web/src/components/import-students-dialog.tsx:373-427 | one record per data row, in order |
| ImportStudents.ParseStudents | apps/web/src/components/import-students-dialog.tsx:350-427 | the records of a sheet: one per data row, in order, keyed by the second row's names |
| ImportStudents.FileAcceptedIff | apps/web/src/components/import-students-dialog.tsx:323-332 | a file is accepted exactly for one of the three spreadsheet MIME types or one of the extensions .csv, .xlsx, .xls |
| ImportStudents.HandleFileSelect | apps/web/src/components/import-students-dialog.tsx:322-456 | no file or another type gives the wrong-type message; an unreadable workbook the read-failed message; otherwise the records of the first sheet are ready with the file |
| ImportStudents.SampleRow | apps/web/src/components/import-students-dialog.tsx:189 | the sample row has one cell per field name |
| ImportStudents.TemplateSheet | apps/web/src/components/import-students-dialog.tsx:186-190 | the template has three rows |
| ImportStudents.TemplateReadsBack | apps/web/src/components/import-students-dialog.tsx:47-190 | the three template rows are 41 wide, every field has a sample value, and importing the template reads the field names back and the sample as its one data row |
| ImportStudents.ImportOutcome | apps/web/src/components/import-students-dialog.tsx:499-530 | success and error counts add up to the number sent; all succeed without a failure; on a failure none succeed and one error on row 1 carries the request's message |
| PoliticsReport.ValueOfGet | apps/web/src/components/politics-quality-report/export-button.tsx:26-27 | reading a count is reading the object's property of that key, 0 when it has none |
| PoliticsReport.ValueOfAbsent | apps/web/src/components/politics-quality-report/export-button.tsx:26-27 | a key the object does not have counts 0 |
| PoliticsReport.EthnicPartition | apps/web/src/components/politics-quality-report/export-button.tsx:26-37 | the Kinh count, the Hoa count and the other ethnicities' counts add up to all ethnic counts |
| PoliticsReport.ReportValues | apps/web/src/components/politics-quality-report/export-button.tsx:54-84 | a report gives one value per exported numeric column |
| PoliticsReport.ReportValuesFacts | apps/web/src/components/politics-quality-report/export-button.tsx:20-84 | the columns without a source are 0; christianity adds both spellings; the three ethnic columns split all ethnic counts, and are 0 without the section |
| PoliticsReport.ReportToExportData | apps/web/src/components/politics-quality-report/export-button.tsx:14-85 | the row of a report keeps its number and name, with an empty note and the report's column values, the other ethnicities summed key by key |
| PoliticsReport.ClassVisits | apps/web/src/components/politics-quality-report/export-button.tsx:122-145 | each class is visited once, in order |
| PoliticsReport.UnitVisits | apps/web/src/components/politics-quality-report/export-button.tsx:106-146 | a top-level unit is visited first, before its children and classes |
| PoliticsReport.ConvertedAppend | apps/web/src/components/politics-quality-report/export-button.tsx:103-147 | converting two visit lists one after the other is converting their concatenation, the second numbered on from the first |
| PoliticsReport.ConvertedNumbers | apps/web/src/components/politics-quality-report/export-button.tsx:93-111 | one row per visited node with a report; the row numbers rise and stay within the visits, a node without a report still using up its number |
| PoliticsReport.ProcessNode | apps/web/src/components/politics-quality-report/export-button.tsx:93-111 | one node adds its row when it has a report and always takes the next number |
| PoliticsReport.ProcessClasses | apps/web/src/components/politics-quality-report/export-button.tsx:122-145 | a list of classes adds their rows in order and takes one number per class |
| PoliticsReport.ProcessChildren | apps/web/src/components/politics-quality-report/export-button.tsx:114-135 | each child is processed followed by its classes, one number per node |
| PoliticsReport.ProcessUnit | apps/web/src/components/politics-quality-report/export-button.tsx:106-146 | a top-level unit, then its children with their classes, then its own classes |
| PoliticsReport.ConvertToSummary | apps/web/src/components/politics-quality-report/export-button.tsx:87-151 | the rows of the visited nodes with a report, numbered from 1 in visiting order |
| PoliticsReport.CalculateTotal | apps/web/src/components/politics-quality-report/export-button.tsx:153-211 | each total column is the column's sum over the top-level units with a report, children not counted again |
| PoliticsReport.TotalEthnicPartition | apps/web/src/components/politics-quality-report/export-button.tsx:153-211 | in the total too, Kinh, Hoa and the other ethnicities add up to all ethnic counts |
| PoliticsReport.Renumber | apps/web/src/components/politics-quality-report/export-button.tsx:215-217 | the rows are numbered 1 to n in order, everything else kept |
| PoliticsReport.ExportButtonData | apps/web/src/components/politics-quality-report/export-button.tsx:213-218 | the export rows are the converted rows renumbered 1 to n consecutively, and the total row is the column sums |
| PoliticsReport.Converted | apps/web/src/components/politics-quality-report/export-button.tsx:103-147 | the export has at most one row per visited unit, a unit without a report giving none |
| PoliticsReport.FieldSum | apps/web/src/components/politics-quality-report/export-button.tsx:153-211 | a column over units none of which has a report sums to 0 |
| PoliticsCharts.RowReports | apps/web/src/components/politics-quality-report/charts-section.tsx:50-55 | one report per chart row |
| PoliticsCharts.NodeReports | apps/web/src/components/politics-quality-report/charts-section.tsx:50-55 | one report per class node |
| PoliticsCharts.RowReportsAppend | apps/web/src/components/politics-quality-report/charts-section.tsx:57-61 | the reports of concatenated rows are the concatenated reports |
| PoliticsCharts.NodeReportsAppend | apps/web/src/components/politics-quality-report/charts-section.tsx:57-61 | the reports of concatenated nodes are the concatenated reports |
| PoliticsCharts.FlattenClassesExact | apps/web/src/components/politics-quality-report/charts-section.tsx:44-62 | flattenClasses yields exactly the class nodes of the tree in order, one row per class carrying its report, whatever the prefix |
| PoliticsCharts.ChildrenClassesExact | apps/web/src/components/politics-quality-report/charts-section.tsx:57-59 | the children's class rows are exactly the children's class nodes, in order |
| PoliticsCharts.FlattenReports | apps/web/src/components/politics-quality-report/charts-section.tsx:67-90 | the first row is the unit itself, named under the prefix, with its report |
| PoliticsCharts.FlattenReportsCount | apps/web/src/components/politics-quality-report/charts-section.tsx:67-90 | flattenReports gives one row per unit and per class of the tree |
| PoliticsCharts.ChildrenReportsCount | apps/web/src/components/politics-quality-report/charts-section.tsx:85-87 | the children contribute one row per node of their trees |
| PoliticsCharts.FirstIndex | apps/web/src/components/politics-quality-report/charts-section.tsx:99-101 | the first position of an element, with no earlier occurrence |
| PoliticsCharts.Distinct | apps/web/src/components/politics-quality-report/charts-section.tsx:99-101 | the set's elements all come from the list |
| PoliticsCharts.FirstIndexOfPrefix | apps/web/src/components/politics-quality-report/charts-section.tsx:99-101 | appending an element does not move an earlier first occurrence |
| PoliticsCharts.DistinctExact | apps/web/src/components/politics-quality-report/charts-section.tsx:99-101 | the distinct elements hold every element of the list exactly once, in the order of first occurrence |
| PoliticsCharts.AllKeysExact | apps/web/src/components/politics-quality-report/charts-section.tsx:100 | a key is listed exactly when some class row's section has it |
| PoliticsCharts.CollectKeysExact | apps/web/src/components/politics-quality-report/charts-section.tsx:98-101 | collectKeys gives every key some class row's section has, each once, in the order first seen |
| PoliticsCharts.ValueOfPut | apps/web/src/components/politics-quality-report/charts-section.tsx:117 | writing a key changes that key's count only |
| PoliticsCharts.AddEntriesDistinct | apps/web/src/components/politics-quality-report/charts-section.tsx:116-118 | adding entries to an object keeps its keys distinct |
| PoliticsCharts.AddEntriesValue | apps/web/src/components/politics-quality-report/charts-section.tsx:116-118 | adding a section's entries adds its count to each key |
| PoliticsCharts.AddOneEntry | apps/web/src/components/politics-quality-report/charts-section.tsx:117 | one step adds the entry's count under its key and nowhere else |
| PoliticsCharts.LastKeyFresh | apps/web/src/components/politics-quality-report/charts-section.tsx:116 | in an object the last key is not among the earlier ones |
| PoliticsCharts.AggregatedValue | apps/web/src/components/politics-quality-report/charts-section.tsx:111-121 | aggregate(key)[k] is the sum of k's counts over the class rows |
| PoliticsCharts.AddRowEntries | apps/web/src/components/politics-quality-report/charts-section.tsx:116-118 | the inner loop adds one row's entries in order |
| PoliticsCharts.Aggregate | apps/web/src/components/politics-quality-report/charts-section.tsx:111-121 | the aggregate object of the section over the class rows |
| PoliticsCharts.OrgDisplayName | apps/web/src/components/politics-quality-report/charts-section.tsx:141-148 | "cpv" is shown as Đảng, "hcyu" as Đoàn, any other key as itself |
| PoliticsCharts.ChartEntries | apps/web/src/components/politics-quality-report/charts-section.tsx:123-148 | one entry per key, valued from the aggregate (0 when absent) and coloured by position modulo the palette |
| PoliticsCharts.SectionChart | apps/web/src/components/politics-quality-report/charts-section.tsx:98-148 | a pie chart has one entry per collected key, coloured in turn from the palette, valued at the key's sum over the classes, political organisations under their display names |
| PoliticsCharts.CollectKeys | apps/web/src/components/politics-quality-report/charts-section.tsx:96-102 | collectKeys lists each key of the section over the rows once, and no other |
| PoliticsCharts.Aggregated | apps/web/src/components/politics-quality-report/charts-section.tsx:111-121 | the aggregate object holds each key once |
| Sidebar.Kids | packages/ui/src/components/app-sidebar/useSidebar.tsx:56-58 | the children of an item are its list, none when items is absent |
| Sidebar.Root | packages/ui/src/components/app-sidebar/useSidebar.tsx:67-75 | a top-level list is handled as the children of a node |
| Sidebar.Flatten | packages/ui/src/components/app-sidebar/useSidebar.tsx:68-73 | an item's listing starts with the item itself |
| Sidebar.FlattenSize | packages/ui/src/components/app-sidebar/useSidebar.tsx:67-75 | the preorder listing has one entry per node of the tree |
| Sidebar.FlattenKidsSize | packages/ui/src/components/app-sidebar/useSidebar.tsx:67-75 | listing the first n children gives one entry per node of their trees |
| Sidebar.FlattenNavItemsSize | packages/ui/src/components/app-sidebar/useSidebar.tsx:67-75 | flattenNavItems lists as many items as the trees of the list have nodes |
| Sidebar.InFlattenKids | packages/ui/src/components/app-sidebar/useSidebar.tsx:67-75 | a node is listed iff one of the children's trees lists it |
| Sidebar.FlattenKidsOf | packages/ui/src/components/app-sidebar/useSidebar.tsx:67-75 | flattening the children depends only on the children |
| Sidebar.FirstWithUrl | packages/ui/src/components/app-sidebar/useSidebar.tsx:55 | an entry found has the url searched for |
| Sidebar.FirstWithUrlSpec | packages/ui/src/components/app-sidebar/useSidebar.tsx:53-65 | the entry found is the first one with that url, and there is none exactly when no entry has it |
| Sidebar.FirstWithUrlAppend | packages/ui/src/components/app-sidebar/useSidebar.tsx:54-63 | searching a concatenation finds in the first part before the second |
| Sidebar.FindNodeFirst | packages/ui/src/components/app-sidebar/useSidebar.tsx:55-62 | searching an item finds the first node of its preorder listing with the url |
| Sidebar.FindKidsFirst | packages/ui/src/components/app-sidebar/useSidebar.tsx:54-63 | searching the children finds the first node of their listing with the url |
| Sidebar.FindActiveItemFirst | packages/ui/src/components/app-sidebar/useSidebar.tsx:53-65 | findActiveItem returns the first item in preorder whose url is the path, and null exactly when no item of the tree has that url |
| Sidebar.SetActive | packages/ui/src/components/app-sidebar/useSidebar.tsx:90-96 | a marked item keeps its title and url, is active iff its url is the path, and keeps the presence of its children |
| Sidebar.SetActiveItems | packages/ui/src/components/app-sidebar/useSidebar.tsx:89-97 | one marked item per item |
| Sidebar.Shape | packages/ui/src/components/app-sidebar/useSidebar.tsx:89-97 | erasing the active flags keeps titles and urls |
| Sidebar.SetActiveShape | packages/ui/src/components/app-sidebar/useSidebar.tsx:89-97 | marking keeps the shape of the tree |
| Sidebar.SetActiveMarks | packages/ui/src/components/app-sidebar/useSidebar.tsx:89-97 | every node of a marked tree is active iff its url is the path |
| Sidebar.SetActiveItemsSpec | packages/ui/src/components/app-sidebar/useSidebar.tsx:89-97 | setActiveItems keeps each tree's shape, and afterwards every node is active iff its url is the active path |
| Sidebar.FilterKids | packages/ui/src/components/app-sidebar/useSidebar.tsx:81 | filtering never adds children |
| Sidebar.Filtered | packages/ui/src/components/app-sidebar/useSidebar.tsx:81-86 | one filtered node per node |
| Sidebar.FilteredAppend | packages/ui/src/components/app-sidebar/useSidebar.tsx:81-86 | filtering distributes over concatenation |
| Sidebar.FilterNodeFlatten | packages/ui/src/components/app-sidebar/useSidebar.tsx:81-86 | a kept node's filtered tree lists exactly the nodes reached through passing nodes, each filtered |
| Sidebar.FlattenNavItemsSnoc | packages/ui/src/components/app-sidebar/useSidebar.tsx:67-75 | listing one more item lists its tree after the others |
| Sidebar.FilterKidsLast | packages/ui/src/components/app-sidebar/useSidebar.tsx:81-86 | a passing child adds its filtered node and its reached nodes; a rejected child adds nothing |
| Sidebar.FilterKidsFlattenStep | packages/ui/src/components/app-sidebar/useSidebar.tsx:81-86 | a passing child's filtered tree extends the listing of the children before it |
| Sidebar.FilterKidsFlatten | packages/ui/src/components/app-sidebar/useSidebar.tsx:77-87 | the filtered children list exactly the nodes reached through passing nodes |
| Sidebar.ReachedSound | packages/ui/src/components/app-sidebar/useSidebar.tsx:81-86 | every reached node is a node of the tree and passes the predicate |
| Sidebar.ReachedKidsSound | packages/ui/src/components/app-sidebar/useSidebar.tsx:81-86 | every node reached below the children is a node of theirs and passes |
| Sidebar.FilterNavItemsSpec | packages/ui/src/components/app-sidebar/useSidebar.tsx:77-87 | filterNavItems lists in preorder exactly the nodes whose ancestors and themselves pass the predicate, each from a passing node of the tree; a rejected node takes its subtree with it |
| Sidebar.FilterNodeAll | packages/ui/src/components/app-sidebar/useSidebar.tsx:81-86 | a predicate passing every node of a tree leaves it as it is |
| Sidebar.AllKeptSplit | packages/ui/src/components/app-sidebar/useSidebar.tsx:81-86 | a predicate passing the first n children's trees passes the first n - 1, the last child and its tree |
| Sidebar.FilterKidsAllStep | packages/ui/src/components/app-sidebar/useSidebar.tsx:81-86 | a passing child left as it is extends the children kept as they are |
| Sidebar.FilterKidsAll | packages/ui/src/components/app-sidebar/useSidebar.tsx:81-86 | when every node passes, the children are kept as they are |
| Sidebar.FilterNavItemsAll | packages/ui/src/components/app-sidebar/useSidebar.tsx:77-87 | a predicate passing every node leaves the list unchanged |
| Sidebar.KidsWhereNonEmpty | packages/ui/src/components/app-sidebar/useSidebar.tsx:101-108 | some child passes iff the kept children are not none |
| Sidebar.MatchingKidsNonEmpty | packages/ui/src/components/app-sidebar/useSidebar.tsx:101-108 | some child matches iff the matching children are not none |
| Sidebar.MatchesUnfold | packages/ui/src/components/app-sidebar/useSidebar.tsx:103-107 | a tree matches iff its root's title has the term or a child matches |
| Sidebar.MatchesLowered | packages/ui/src/components/app-sidebar/useSidebar.tsx:100 | matching does not change when the term is lower-cased first |
| Sidebar.SearchKeepsIff | packages/ui/src/components/app-sidebar/useSidebar.tsx:102-108 | the search keeps an item iff its tree has a title containing the term |
| Sidebar.SearchKidsLast | packages/ui/src/components/app-sidebar/useSidebar.tsx:101-114 | one more child is added, with its fields, exactly when the search keeps it |
| Sidebar.SameFieldsExtend | packages/ui/src/components/app-sidebar/useSidebar.tsx:109-114 | lists related field by field stay so when both gain related items |
| Sidebar.MatchingKidsLast | packages/ui/src/components/app-sidebar/useSidebar.tsx:101-108 | one more child is added to the matching children exactly when it matches |
| Sidebar.SearchKidsSpec | packages/ui/src/components/app-sidebar/useSidebar.tsx:99-115 | the search keeps exactly the children that match, in order, each with title, url, flag and presence of children unchanged |
| Sidebar.SearchNavItemsSpec | packages/ui/src/components/app-sidebar/useSidebar.tsx:99-115 | searchNavItems keeps an item iff its lower-cased title contains the lower-cased term or some item below it does |
| Sidebar.SpliceStart | packages/ui/src/components/app-sidebar/useSidebar.tsx:28 | a negative position counts from the end, and the position is clamped to the list |
| Sidebar.SplicedPointwise | packages/ui/src/components/app-sidebar/useSidebar.tsx:28-32 | a list with the group at the clamped position and the old items around it is the splice |
| Sidebar.UseSidebarLogic | packages/ui/src/components/app-sidebar/useSidebar.tsx:12-50 | without dynamic data or a transformer the base navigation; otherwise navMain with one group of the transformed items inserted at insertPosition (1 by default), titled groupTitle ("Dynamic Items" by default), with url '#', the rest of the data unchanged |
| Sidebar.SpliceOneGroup | packages/ui/src/components/app-sidebar/useSidebar.tsx:25-32 | the spliced navigation is one longer, holds the group at the insert position, and removing it gives back the base list |
| Sidebar.FlattenNavItems | packages/ui/src/components/app-sidebar/useSidebar.tsx:67-75 | the preorder listing has one entry per node of the list's trees |
| Sidebar.FindActiveItem | packages/ui/src/components/app-sidebar/useSidebar.tsx:53-65 | an item found has the path as its url |
| Sidebar.FilterNavItems | packages/ui/src/components/app-sidebar/useSidebar.tsx:77-87 | filtering keeps at most the items of the list |
| Sidebar.SearchKids | packages/ui/src/components/app-sidebar/useSidebar.tsx:101-114 | the search over the first n children keeps at most n of them |
| Sidebar.SearchNavItems | packages/ui/src/components/app-sidebar/useSidebar.tsx:99-115 | the search keeps at most the items of the list |
| Sidebar.Splice | packages/ui/src/components/app-sidebar/useSidebar.tsx:28-32 | inserting with splice makes the list one longer, with the new group at the clamped position |
| Broadcaster.StreamsIn | apps/api/notifications/broadcaster.ts:52 | a connected user's list, and no streams for anyone else |
| Broadcaster.DeleteMembers | apps/api/notifications/broadcaster.ts:45 | Map.delete keeps exactly the entries of the other users |
| Broadcaster.GetAppend | apps/api/notifications/broadcaster.ts:15 | reading a map with one more entry at the end finds that entry for its key |
| Broadcaster.DeleteGet | apps/api/notifications/broadcaster.ts:45 | deleting a user removes that user and leaves every other user's list as it was |
| Broadcaster.DeleteDistinct | apps/api/notifications/broadcaster.ts:45 | deleting keeps each user once |
| Broadcaster.DeleteAbsent | apps/api/notifications/broadcaster.ts:45 | deleting a user who is not connected changes nothing |
| Broadcaster.DistinctLast | apps/api/notifications/broadcaster.ts:6 | in a map, the last key does not occur before it |
| Broadcaster.TotalAppend | apps/api/notifications/broadcaster.ts:65-71 | one more entry adds its list length to the total |
| Broadcaster.TotalUpdate | apps/api/notifications/broadcaster.ts:65-71 | replacing one entry changes the total by the difference of the list lengths |
| Broadcaster.TotalPut | apps/api/notifications/broadcaster.ts:15 | setting a user's list changes the total by the difference with the old list |
| Broadcaster.TotalDelete | apps/api/notifications/broadcaster.ts:45 | deleting a user takes that user's streams off the total |
| Broadcaster.DeleteUser | apps/api/notifications/broadcaster.ts:43-46 | deleting a user keeps the map well formed, removes exactly that user and takes their streams off the total |
| Broadcaster.IndexOf | apps/api/notifications/broadcaster.ts:24 | indexOf gives the first position of the stream, and -1 exactly when it is absent |
| Broadcaster.RemoveFirstSpec | apps/api/notifications/broadcaster.ts:24-27 | removing takes out one occurrence of a present stream and changes nothing otherwise |
| Broadcaster.RemoveFirstAt | apps/api/notifications/broadcaster.ts:24-27 | splice(indexOf(x), 1) is removing the first occurrence |
| Broadcaster.Succeeded | apps/api/notifications/broadcaster.ts:102-116 | the streams kept are at most those there were |
| Broadcaster.SucceededMembers | apps/api/notifications/broadcaster.ts:104-116 | the kept streams are exactly those at a position whose send succeeded |
| Broadcaster.SucceededMultiset | apps/api/notifications/broadcaster.ts:104-116 | no stream is kept more often than it was there |
| Broadcaster.SucceededAllOrNone | apps/api/notifications/broadcaster.ts:104-116 | all streams are kept in order when every send succeeds, none when every send fails |
| Broadcaster.AfterSendSpec | apps/api/notifications/broadcaster.ts:90-125 | after a send the user keeps exactly the streams that took the message, is gone when none did, every other user is untouched, and the map stays well formed |
| Broadcaster.AfterSendsSpec | apps/api/notifications/broadcaster.ts:158-168 | sending to a list of users never adds a stream and leaves every unlisted user untouched |
| Broadcaster.PingMessage | apps/api/notifications/broadcaster.ts:130-138 | a ping of kind "ping" to the user, message and title the payload, "ping" by default |
| Broadcaster.CountsOfSpec | apps/api/notifications/broadcaster.ts:192-196 | each connected user is counted with the length of their list, and nobody else |
| Broadcaster.NotificationBroadcaster.constructor | apps/api/notifications/broadcaster.ts:6 | a new broadcaster has no streams |
| Broadcaster.NotificationBroadcaster.HasActiveStreamsIff | apps/api/notifications/broadcaster.ts:83-85 | a user has active streams exactly when connected |
| Broadcaster.NotificationBroadcaster.AddStream | apps/api/notifications/broadcaster.ts:11-16 | the stream goes at the end of the user's list; other users unchanged; the total grows by one |
| Broadcaster.NotificationBroadcaster.RemoveStream | apps/api/notifications/broadcaster.ts:21-38 | the first occurrence leaves the user's list, the user leaves the map with their last stream, other users unchanged; an absent stream changes nothing |
| Broadcaster.NotificationBroadcaster.RemoveAllStreamsForUser | apps/api/notifications/broadcaster.ts:43-46 | the user leaves the map, other users unchanged, their streams off the total |
| Broadcaster.NotificationBroadcaster.GetTotalConnectionCount | apps/api/notifications/broadcaster.ts:65-71 | the loop adds up the list lengths |
| Broadcaster.NotificationBroadcaster.SendToUser | apps/api/notifications/broadcaster.ts:90-125 | the message is attempted on each of the user's streams in order, and the user keeps exactly the streams that took it; no streams changes nothing |
| Broadcaster.NotificationBroadcaster.SendEach | apps/api/notifications/broadcaster.ts:102-116 | one send attempt per stream, in order, keeping the streams that took the message |
| Broadcaster.NotificationBroadcaster.SendPingToUser | apps/api/notifications/broadcaster.ts:130-138 | every attempt carries the ping with the payload |
| Broadcaster.NotificationBroadcaster.SendToEach | apps/api/notifications/broadcaster.ts:164-167 | each listed user is sent to in turn |
| Broadcaster.NotificationBroadcaster.BroadcastToUsers | apps/api/notifications/broadcaster.ts:158-168 | every listed user is sent the message; unlisted users are untouched; no stream is added |
| Broadcaster.NotificationBroadcaster.BroadcastToAll | apps/api/notifications/broadcaster.ts:143-153 | every connected user is sent the message; no stream is added |
| Broadcaster.NotificationBroadcaster.CleanupDeadConnections | apps/api/notifications/broadcaster.ts:173-182 | every connected user is pinged with "cleanup-ping", one after the other; no stream is added |
| Broadcaster.NotificationBroadcaster.PingEach | apps/api/notifications/broadcaster.ts:177-179 | each listed user is pinged in turn |
| Broadcaster.NotificationBroadcaster.GetConnectionStats | apps/api/notifications/broadcaster.ts:187-203 | the total, the number of connected users and each connected user's count, and nobody else's |
| Broadcaster.NotificationBroadcaster.HandleStreamDisconnect | apps/api/notifications/broadcaster.ts:208-210 | the stream is removed as by removeStream |
| Broadcaster.AfterSend | apps/api/notifications/broadcaster.ts:90-125 | a send to a user without streams leaves the map as it was |
| Broadcaster.NotificationBroadcaster.GetUserStreams | apps/api/notifications/broadcaster.ts:51-53 | a connected user's list of streams, and none for a user not connected |
| Broadcaster.NotificationBroadcaster.GetConnectedUserIds | apps/api/notifications/broadcaster.ts:76-78 | one id per map entry, in insertion order |
| NotificationsController.ConvertToEntityQuery | apps/api/notifications/controller.ts:18-35 | a missing or non-positive page is 0, a positive one kept; a missing or non-positive page size is 10, one above 100 is 100, any other kept |
| NotificationsController.QueryInRange | apps/api/notifications/controller.ts:18-35 | whatever the input, the page is not negative and the page size lies between 1 and 100 |
| NotificationsController.ConvertIdempotent | apps/api/notifications/controller.ts:18-35 | converting a converted query again changes nothing |
| NotificationsController.MarkAsRead | apps/api/notifications/controller.ts:50-56 | one update per id, in order, each for that id and setting only readAt to the time |
| NotificationsController.MarkAsReadAppend | apps/api/notifications/controller.ts:51-56 | marking a list of ids read is marking each part in turn |
| Authz.ValidIdsFromUnit | apps/api/middleware/authz.ts:15-33 | an unknown unit gives no ids; otherwise the unit ids start with the unit itself |
| Authz.ValidIdsFromUnitLevels | apps/api/middleware/authz.ts:22-32 | a battalion reaches itself, its children and exactly its children's classes (not its own); a company itself and its own classes; any other level itself and no class |
| Authz.UnitClassIdsOf | apps/api/middleware/authz.ts:38-46 | the loop over one unit gives its own classes, then each child's |
| Authz.GetAllValidIds | apps/api/middleware/authz.ts:35-57 | the super admin's ids: every unit's class ids and unit ids, one unit after the other |
| Authz.InAllClassIds | apps/api/middleware/authz.ts:38-46 | an id is among all class ids exactly when some unit contributes it |
| Authz.InAllUnitIds | apps/api/middleware/authz.ts:48-54 | an id is among all unit ids exactly when some unit contributes it |
| Authz.AllValidIdsMembers | apps/api/middleware/authz.ts:35-57 | a super admin's class ids are exactly the units' own classes and their children's, and the unit ids exactly the units and their children |
| Authz.AuthorizedIdsCases | apps/api/middleware/authz.ts:59-113 | no ids without auth data, for a caller with neither super admin nor an id, for a user without a unit, or when a step throws; for a user whose unit is found, the unit ids start with it |
| Authz.RequestData.constructor | apps/api/middleware/authz.ts:9-12 | a request starts with no valid ids |
| Authz.AuthzMiddleware | apps/api/middleware/authz.ts:59-113 | the request's valid class and unit ids are the authorised ids before it goes on |
| Units.InChildClassIds | apps/api/middleware/authz.ts:40-44 | a class id is among the children's class ids exactly when one of the children lists it |
| StudentsController.ClassIdFilter | apps/api/students/controller.ts:80 | no class filter exactly for an absent id or the id 0; otherwise just that id |
| StudentsController.FindClassIds | apps/api/students/controller.ts:29-82 | a missing unitAlias or unitLevel raises the invalid-argument error before any lookup |
| StudentsController.FindClassIdsCases | apps/api/students/controller.ts:35-82 | an unknown unit is not found; a battalion's query covers exactly its companies' classes; a company's its own classes; classId is used only for another level and never changes a battalion's or company's outcome |
| StudentsController.Update | apps/api/students/controller.ts:84-117 | an empty request raises "No record IDs provided"; the update succeeds exactly when every record has a field left after dropping undefined ones, and then maps each record in order; otherwise the first empty record's error |
| ClassesController.AllInMembers | apps/api/classes/controller.ts:28 | `every`/`includes` holds exactly when every listed unit id is among the allowed ones |
| ClassesController.UnitIdsOf | apps/api/classes/controller.ts:27 | one unit id per class parameter, in order |
| ClassesController.CreateCheck | apps/api/classes/controller.ts:27-56 | a unit id that is not allowed is refused as unauthorised first; then a lookup that finds fewer or more units than asked is an invalid argument; then any battalion among them is refused as not a company; creation goes ahead exactly when none of these holds |
| ClassesController.CreatedInValidUnits | apps/api/classes/controller.ts:27-56 | every class that is created goes into an allowed unit and no unit looked up is a battalion |
| ClassesController.DeleteCheck | apps/api/classes/controller.ts:59-74 | deletion goes ahead exactly when every class id is allowed; otherwise the unauthorised delete error |
| ClassesController.FindReports | apps/api/classes/controller.ts:82-96 | the unauthorised read error is reported exactly when ids are given and one is not allowed; without ids nothing is reported |
| ClassesController.Update | apps/api/classes/controller.ts:98-155 | the unauthorised error is reported exactly when a class id or a unit id is not allowed; an empty request raises "No record IDs provided"; the update map is built exactly when every record keeps a field, one item per record in order; otherwise the first empty record is named |
| ClassesController.FindOne | apps/api/classes/controller.ts:157-175 | the repository's answer is returned as is; the unauthorised error is reported exactly for an id not allowed and the invalid argument exactly when nothing was found, in that order |
| RecordUpdate.Cleanup | apps/api/classes/controller.ts:132-138 | the cleaned payload is never longer than the fields given |
| RecordUpdate.CleanupAppend | apps/api/classes/controller.ts:134-138 | the cleanup keeps the order of the defined fields: cleaning a concatenation cleans each part |
| RecordUpdate.CleanupMembers | apps/api/classes/controller.ts:134-138 | a field survives exactly when it is defined, with its name and value unchanged |
| RecordUpdate.CleanupEmptyIff | apps/api/classes/controller.ts:134-141 | the cleaned payload is empty exactly when every field is undefined |
| RecordUpdate.CleanupDefined | apps/api/classes/controller.ts:134-138 | a payload with every field defined passes through unchanged |
| RecordUpdate.MapRecordsSpec | apps/api/classes/controller.ts:132-152 | the records map exactly when none is left empty, one item per record in order with its id and cleaned payload; otherwise the first empty record's id is in the error |
| RecordUpdate.BuildUpdateMapSpec | apps/api/classes/controller.ts:126-152 | an empty request raises "No record IDs provided"; the map is built exactly when there are records and each keeps a field; otherwise the first empty record is named |
| PermissionTags.ExtractPermissionFromTag | apps/api/middleware/permission-tags.ts:67-70 | no permission exactly when the tag does not start with "perm:"; otherwise the tag is "perm:" followed by the result |
| PermissionTags.ExtractPrefixed | apps/api/middleware/permission-tags.ts:67-70 | extracting from "perm:" put in front of any text gives that text back |
| PermissionTags.ClassesRow | apps/api/middleware/permission-tags.ts:6-11 | the classes entries are the classes tag of each action, in order |
| PermissionTags.StudentsRow | apps/api/middleware/permission-tags.ts:13-18 | the students entries are the students tag of each action, in order |
| PermissionTags.UsersRow | apps/api/middleware/permission-tags.ts:20-25 | the users entries are the users tag of each action, in order |
| PermissionTags.UnitsRow | apps/api/middleware/permission-tags.ts:27-32 | the units entries are the units tag of each action, in order |
| PermissionTags.RolesRow | apps/api/middleware/permission-tags.ts:34-39 | the roles entries are the roles tag of each action, in order |
| PermissionTags.PermissionsRow | apps/api/middleware/permission-tags.ts:41-46 | the permissions entries are the permissions tag of each action, in order |
| PermissionTags.ResourcesRow | apps/api/middleware/permission-tags.ts:48-53 | the resources entries are the resources tag of each action, in order |
| PermissionTags.ActionsRow | apps/api/middleware/permission-tags.ts:55-60 | the actions entries are the actions tag of each action, in order |
| PermissionTags.ResourceRow | apps/api/middleware/permission-tags.ts:5-61 | each resource's five entries are its create, read, update, delete and manage tags |
| PermissionTags.PermissionTagLayout | apps/api/middleware/permission-tags.ts:1-61 | the table holds every resource-action pair once, entry i being "perm:<resource i/5>:<action i%5>" |
| PermissionTags.PermissionTagsExtract | apps/api/middleware/permission-tags.ts:2-70 | every tag of the table starts with "perm:" and extracts to "<resource>:<action>" |
| PermissionTags.GetPermissionTags | apps/api/middleware/permission-tags.ts:75-77 | the result is no longer than the list and every tag in it starts with "perm:" |
| PermissionTags.GetPermissionTagsAppend | apps/api/middleware/permission-tags.ts:75-77 | the filter keeps order: filtering a concatenation filters each part |
| PermissionTags.GetPermissionTagsMembers | apps/api/middleware/permission-tags.ts:75-77 | a tag is kept exactly when it is in the list and starts with "perm:" |
| PermissionTags.GetPermissionTagsAll | apps/api/middleware/permission-tags.ts:75-77 | a list made only of permission tags is kept whole |
| PermissionTags.GetPermissionTagsIdempotent | apps/api/middleware/permission-tags.ts:75-77 | filtering twice is filtering once |
| ImgProvider.ExtractExtension | apps/api/students/img-provider.ts:53-61 | the extension returned is always one of the five accepted image types |
| ImgProvider.SplitLast | apps/api/students/img-provider.ts:54-55 | the last piece of a split on '.' holds no '.', ends the key, and is the whole key or follows its last '.' |
| ImgProvider.LastPieceAfterDot | apps/api/students/img-provider.ts:54-55 | the last piece of a key split on '.' is exactly what follows its last '.' |
| ImgProvider.ExtractExtensionAfterDot | apps/api/students/img-provider.ts:53-61 | a key with a '.' gives the text after its last '.' when that is an accepted lower-case extension, and '.png' otherwise, an upper-case extension included |
| ImgProvider.ExtractExtensionNoDot | apps/api/students/img-provider.ts:53-61 | a key without a '.' gives '.png' unless the whole key names an accepted extension ("gif" gives ".gif") |
| ImgProvider.GetImageData | apps/api/students/img-provider.ts:32-46 | the image record carries the given dimensions, the provider's buffer unchanged and the key's extension |
| ApiErrors.LibsqlErrorKinds | apps/api/utils/index.ts:22-80 | a unique-constraint violation is "already exists"; a not-null, range or plain constraint violation is an invalid argument; a busy database is unavailable; read-only and authorisation failures are permission denied; every other code is internal |
| ApiErrors.UnhandledCodeMessage | apps/api/utils/index.ts:75-78 | a code the switch does not name is internal, with the code in the message |
| ApiErrors.MapAppErrorToApiError | apps/api/utils/index.ts:82-98 | the API error keeps the application error's message |
| ApiErrors.MapAppErrorKeeps | apps/api/utils/index.ts:82-98 | the five named kinds keep a code of the same name and every other kind becomes internal, the message unchanged |
| ApiErrors.HandleDatabaseErr | apps/api/utils/index.ts:100-114 | anything but a query error caused by a SQLite error is thrown as the internal "Internal error"; such a query error is thrown as the mapping of its code |
| ApiErrors.DatabaseErrToApi | apps/api/utils/index.ts:22-114 | through both mappings a SQLite error reaches the client as "already exists", unavailable, permission denied or invalid argument exactly for the codes that map there, and never as unimplemented |
| ApiErrors.HandleLibsqlError | apps/api/utils/index.ts:22-80 | every code gets a message; "already exists" comes only from a unique-constraint violation and "unavailable" only from a busy database |
| MediaController.GenerateStorageKey | apps/api/media/controller.ts:21-23 | the key is the user id, then '-', then the file name |
| MediaController.StorageKeyInjective | apps/api/media/controller.ts:21-23 | for one user id, different file names get different keys |
| MediaController.SavedUris | apps/api/media/controller.ts:28-42 | a successful upload gives one URI per file |
| MediaController.SavedUrisSpec | apps/api/media/controller.ts:28-42 | the upload succeeds exactly when the storage accepts every file, with one URI per file in input order, each the key reported for that file's generated key and body; otherwise it fails with the rejection of the first file refused, every file before it having been accepted |
| MediaController.RejectionSticks | apps/api/media/controller.ts:35-39 | once a file is rejected, the files after it do not change the outcome: the uncaught rejection ends the loop |
| MediaController.KeysOf | apps/api/media/controller.ts:36 | file i is stored under the key generated from the user id and its file name |
| MediaController.SaveFiles | apps/api/media/controller.ts:28-42 | the upload loop settles to the outcome above; every file's key is sent when all are stored, and on a rejection exactly the keys up to and including the rejected file's |
| MediaController.RetrieveFile | apps/api/media/controller.ts:47-64 | the response body and length are passed through, the etag is the URI, and a missing or empty content type becomes "application/octet-stream", so the type is never empty |
| MediaController.ValidateFileUri | apps/api/media/controller.ts:69-74 | an accepted URI is returned unchanged; a rejected one raises "File URI is required" |
| MediaController.ValidateFileUriIff | apps/api/media/controller.ts:69-74 | a URI is accepted exactly when it is present and holds a character that is not white space |
| MediaController.GetCacheHeaders | apps/api/media/controller.ts:79-84 | public caching for 365 days, the same number of seconds in the header text and in maxAge |
| OrderedMap.KeyIndex | packages/customgradeexport/classes/course_export_helper.php:216-222 | a position found holds the key; no position means no entry has the key |
| OrderedMap.Get | packages/customgradeexport/classes/course_export_helper.php:216-222 | a value is read exactly when the key is set, and it is the value stored under that key |
| OrderedMap.Put | packages/customgradeexport/classes/course_export_helper.php:217-222 | writing an existing key replaces its value in its place; a new key is added at the end; every other entry is unchanged |
| OrderedMap.Keys | packages/customgradeexport/classes/course_export_helper.php:214-225 | the keys, one per entry, in insertion order |
| OrderedMap.Values | packages/customgradeexport/classes/course_export_helper.php:214-225 | the values, one per entry, in key order |
| OrderedMap.HasKeyIffInKeys | packages/customgradeexport/classes/course_export_helper.php:216 | `isset` holds exactly when the key is one of the keys |
| OrderedMap.GetPutSame | packages/customgradeexport/classes/course_export_helper.php:222 | reading the key just written gives the value written |
| OrderedMap.GetPutOther | packages/customgradeexport/classes/course_export_helper.php:222 | writing one key leaves every other key's value alone |
| OrderedMap.PutKeepsDistinct | packages/customgradeexport/classes/course_export_helper.php:217-222 | writing never gives a key a second place |
| OrderedMap.PutKeys | packages/customgradeexport/classes/course_export_helper.php:217-222 | writing keeps the existing keys in order and adds a new key at the end |
| OrderedMap.PutHasKey | packages/customgradeexport/classes/course_export_helper.php:217-222 | after a write, exactly the old keys and the written key are set |
| OrderedMap.MergeDistinct | packages/customgradeexport/classes/template_processor.php:69-84 | `array_merge` of maps whose string keys are all different is the first followed by the second, unchanged |
| Strs.ReplaceAll | packages/customgradeexport/classes/excel_template_processor.php:87 | `str_replace` of a pattern by itself changes nothing, and a replacement of the pattern's length keeps the text's length |
| Strs.ReplaceAllAbsent | packages/customgradeexport/classes/excel_template_processor.php:87 | a text in which the pattern does not occur is left as it is |
| Strs.Trim | packages/customgradeexport/classes/course_export_helper.php:251 | the trimmed text is a piece of the original, no longer than it, with no space of the flavour at either end |
| Strs.TrimIdempotent | packages/customgradeexport/classes/course_export_helper.php:251 | trimming twice is trimming once |
| Strs.Split | packages/customgradeexport/classes/course_export_helper.php:244 | `explode` gives at least one piece and no piece contains the separator |
| Strs.JoinSplit | packages/customgradeexport/classes/course_export_helper.php:244 | joining the pieces with the separator gives the text back |

## Left out

- Task pool concurrency: the worker goroutines, idle-timer eviction, `Start`, the WaitGroup, `sync.Pool` reuse and the atomic and lock mechanics are not modelled. A worker is the sequential `Step` method; `putResult` clears a fresh `ResultSlot`.
- Task pool timing: the 100 ms best-effort send of a result, the background goroutine of `CloseWithTimeout`, and the `ctx.Done` branch of `SubmitWithTimeout`. That branch is reachable only in a race with `Close`, which sets `closed` first; sequentially it is the closed check.
- `SubmitFunc`: it wraps a function as a task and is otherwise `Submit`, so it is not modelled separately.
- Task pool task ids, durations and start times are given numbers, and what a task does (return, fail, panic, time out) is an input. The source builds a task id from the clock (`task-<UnixNano>`), so two submissions in the same nanosecond share an id; the model does not capture that.
- TaskPool.Pool.SubmitBatch: the goroutines submit in index order, and the workers' progress between submissions is an input (`drainBefore`); other start orders of the goroutines are not modelled, nor the `ctx.Done` branch taken when the pool closes while a goroutine waits.
- TaskPool.Pool.constructor: a `QueueSize` of 0 is an unbuffered channel, where a send succeeds only by direct hand-off to a waiting worker; the model has no waiting workers, so it requires a positive queue size.
- TaskPool.Pool.Step: a worker that sees the pool's context cancelled may also exit without taking the envelope; in the model such an envelope simply is not stepped.
- `GradeSource.String` and `GradeComponent.String` return their own text unchanged. A code is its text in the model, so they have no member.
- OTel handler: `ContextHandler.Handle` is not modelled: it adds the Encore service and endpoint and the trace ids, emits the converted record to the OpenTelemetry logger and forwards to the wrapped handler, all I/O; the record it emits is `ConvertRecord`. `ContextHandler.Enabled` answers true at every level (its call to the logger is commented out), so it has no member. The float branch of `convertValue` is left out; its uint64 branch is modelled.
- OTel group chain: it is a value (a sequence of groups), so `group.Clone` is implicit.
- rlog: the caller's stack frame and the Encore request are inputs of `Handle`.
- Floating point: PHP's doubles, `round(…, 2)`, `calculate_tkmh` and the quiz and assignment percentages. Grades are exact reals, and formatted numbers are inputs.
- The numeric-string conversion (`is_numeric`) of course metadata in the student-grades service is not modelled.
- `strip_tags` on assignment feedback and on category descriptions is an input function.
- Case folding: `strtolower` and `toLowerCase` are modelled as ASCII-only lower-casing, so Vietnamese capital letters are not folded.
- JavaScript `Date`: `excelSerialToIso` and the numeric branch of `toIsoDate` are left out. The free-form `new Date(text)` fallback of `parseDate` is an input function.
- DatePicker.FormatParseRoundTrip: stated for years written without a leading zero, from 1000 on. For years 100 to 999, `formatDate` prints the year unpadded, so the round trip fails; `FormatDropsYearZeros` and `ZeroLedYearExample` show it with 01/01/0100.
- `AppError.handleAppErr` is not part of this model. The sites that call it without `throw` are modelled as a list of reported errors, or with an explicit `aborts` flag, beside the value the code goes on with.
- Moodle and storage I/O: the database, capability checks, `userdate`, `fullname`, the custom-field handlers, object storage and repositories are input functions or answers.
- Grade rows whose item number or instance is null in `get_course_data` are not distinguished from zero.
- PHPExcel and PHPWord document I/O and HTTP headers are not modelled: `send_excel_download`, loading and saving files, and the row styles (`get_row_styles`, `copy_row_styles`).
- The quiz and assignment `export_grades`, `export_grades_docx` and `export_with_*` wrappers and their attempt and participant queries are not modelled; their answers are inputs of the row builders.
- Template files: the size and modification time of a listed template are not modelled. The directory listing and the success of a move or delete are inputs.
- TemplateManager.MatchAt: PCRE's `$` also matches just before a final newline, so the source would also read a file name ending in a newline; the model reads only names that end with the extension. The kind is inserted into the pattern unescaped; the three kinds are plain letters, so it is matched as literal text.
- Import dialog: reading the workbook and `JSON.parse` are inputs, and the instruction sheet and styles of the downloadable template are not modelled.
- Broadcaster: `broadcastToAll` and `broadcastToUsers` send concurrently (`Promise.allSettled`); the model sends user by user, in order. Whether a stream write succeeds is an input.
- `markAsRead` reads the clock once per id; the model takes one formatted time for all of them.
- Pass-through controller methods are not modelled, because they only forward to the repository: student `create`/`delete` and class `findByIds`/`find`.
- `streamToBuffer` and `createImageInjector` in the image provider are stream plumbing and a closure around `getImageData`.
- The column-letter loops of the Excel template processor are modelled with integer column indices; the as-written string loop is kept only to exhibit the finding below.

## Findings

The pipelines that call these operations are modelled as the program is written; each corrected member stands beside its as-written one, with the intended property proved about it.

| source | as written | input that shows it | evidently intended | confidence | as-written member | corrected member |
|---|---|---|---|---|---|---|
| packages/customgradeexport/classes/excel_template_processor.php:80 | `for ($col = 'A'; $col <= $highestCol; $col++)` compares column names as strings (the same loop is at lines 157 and 180) | highest column "AB": "B" > "AB", so only column "A" is visited; highest column "Z": "AA" <= "Z", so the loop runs past "Z" | visit every column from "A" to the highest column once | high; not executed | ExcelTemplate.ColumnLoopStopsEarly | ExcelTemplate.SheetColumnsDistinct |
| packages/customgradeexport/classes/excel_template_processor.php:121-142 | `insert_table_data` writes the first data row into the template row, then removes the template row | template [["${name}"]] with table [["Name"], ["Alice"]]: the sheet ends empty | keep every data row, removing the template row only when no data row was written over it | high; not executed | ExcelTemplate.FirstDataRowLost | ExcelTemplate.DataRowsKept |
| packages/customgradeexport/classes/course_export_helper.php:211-223 | the custom-field rows are read with `get_records_sql`, which keys its answer by the first column, `cmid`, so only the last row of each module reaches the loop (the same code is at packages/coursegrades/classes/external/get_course_data.php:223 and packages/coursegrades/classes/external/get_student_grades.php:255; the graded-modules query at packages/coursegrades/classes/external/get_course_data.php:95 is keyed the same way, so a course module with two grade items keeps one row, and `CourseData.GetCourseData` takes that keyed answer as its input) | module 7 with an "examtype" row followed by a "weight" row: the map for module 7 holds only "weight", and the module reads as having no exam type | every field of a module under its short name | medium (only modules with more than one custom field are affected); not executed | CustomField.SecondFieldLost | CustomField.FieldMapFields |
