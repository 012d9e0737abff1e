/**
 * The update-payload cleanup shared by the students and classes controllers
 * (`update` in `apps/api/students/controller.ts` and
 * `apps/api/classes/controller.ts`): each record's fields other than its id
 * lose the ones that are `undefined`; an empty list of records, or a record
 * left with no field, is an invalid argument.
 */
module RecordUpdate {
  import opened Wrappers
  import opened Strs
  import opened ApiErrors

  /** A field value as it arrives in a request body. */
  datatype Value = IntValue(i: int) | TextValue(s: string) | BoolValue(b: bool) | NullValue

  /** One field of an update record; an absent value is `undefined`. */
  datatype Field = Field(name: string, value: Option<Value>)

  /** A defined field after the cleanup. */
  datatype Entry = Entry(name: string, value: Value)

  /** A record of the request: its id and the rest of its fields. */
  datatype UpdateRecord = UpdateRecord(id: int, payload: seq<Field>)

  /** What the repository's `update` receives for one record. */
  datatype UpdateItem = UpdateItem(id: int, updatePayload: seq<Entry>)

  const NoIdsMessage: string := "No record IDs provided"

  function EmptyPayloadMessage(id: int): string
  {
    "No update data provided At least one field must be provided to update record with id: " + IntToString(id)
  }

  /** The first value given for a field name, if any field has that name. */
  function FieldValue(payload: seq<Field>, name: string): (r: Option<Value>)
    ensures r.Some? ==> exists i :: 0 <= i < |payload| && payload[i].name == name && payload[i].value == r
  {
    if payload == [] then None
    else if payload[0].name == name then payload[0].value
    else FieldValue(payload[1..], name)
  }

  /** `Object.fromEntries(Object.entries(p).filter(([_, v]) => v !== undefined))` */
  function Cleanup(payload: seq<Field>): (r: seq<Entry>)
    ensures |r| <= |payload|
  {
    if payload == [] then []
    else
      var last := payload[|payload| - 1];
      Cleanup(payload[..|payload| - 1]) + (if last.value.Some? then [Entry(last.name, last.value.value)] else [])
  }

  /** The cleanup keeps the defined fields in their order: cleaning a concatenation cleans each part. */
  lemma {:induction false} CleanupAppend(a: seq<Field>, b: seq<Field>)
    ensures Cleanup(a + b) == Cleanup(a) + Cleanup(b)
    decreases |b|
  {
    if b == [] {
      assert a + b == a;
    } else {
      var front := b[..|b| - 1];
      CleanupAppend(a, front);
      assert (a + b)[..|a + b| - 1] == a + front;
    }
  }

  /** A field survives the cleanup exactly when it is defined, with its name and value unchanged. */
  lemma {:induction false} CleanupMembers(payload: seq<Field>, name: string, v: Value)
    ensures Entry(name, v) in Cleanup(payload) <==> Field(name, Some(v)) in payload
  {
    if payload != [] {
      var front := payload[..|payload| - 1];
      CleanupMembers(front, name, v);
      assert payload == front + [payload[|payload| - 1]];
    }
  }

  /** The cleanup is empty exactly when every field is undefined. */
  lemma {:induction false} CleanupEmptyIff(payload: seq<Field>)
    ensures Cleanup(payload) == [] <==> forall i :: 0 <= i < |payload| ==> payload[i].value.None?
  {
    if payload != [] {
      var front := payload[..|payload| - 1];
      CleanupEmptyIff(front);
      if Cleanup(payload) == [] {
        forall i | 0 <= i < |payload| ensures payload[i].value.None? {
          if i < |front| {
            assert payload[i] == front[i];
          }
        }
      }
    }
  }

  /** A payload with every field defined passes through the cleanup unchanged. */
  lemma {:induction false} CleanupDefined(payload: seq<Field>)
    requires forall i :: 0 <= i < |payload| ==> payload[i].value.Some?
    ensures |Cleanup(payload)| == |payload|
    ensures forall i :: 0 <= i < |payload| ==> Cleanup(payload)[i] == Entry(payload[i].name, payload[i].value.value)
  {
    if payload != [] {
      var front := payload[..|payload| - 1];
      CleanupDefined(front);
    }
  }

  /** The records mapped in order; the first one left empty is thrown. */
  function MapRecords(params: seq<UpdateRecord>): Result<seq<UpdateItem>, AppError>
  {
    if params == [] then Ok([])
    else
      var payload := Cleanup(params[0].payload);
      if payload == [] then Err(AppError(InvalidArgument, EmptyPayloadMessage(params[0].id)))
      else
        match MapRecords(params[1..])
        case Ok(rest) => Ok([UpdateItem(params[0].id, payload)] + rest)
        case Err(e) => Err(e)
  }

  /** The update map the repository receives, or the invalid-argument error thrown instead. */
  function BuildUpdateMap(params: seq<UpdateRecord>): Result<seq<UpdateItem>, AppError>
  {
    if params == [] then Err(AppError(InvalidArgument, NoIdsMessage))
    else MapRecords(params)
  }

  /** No record has an empty cleanup. */
  predicate AllNonEmpty(params: seq<UpdateRecord>)
  {
    forall i :: 0 <= i < |params| ==> Cleanup(params[i].payload) != []
  }

  /** One item per record, in order, with the record's id and its cleaned payload. */
  predicate MappedInOrder(params: seq<UpdateRecord>, items: seq<UpdateItem>)
  {
    |items| == |params| && forall i :: 0 <= i < |params| ==> items[i] == UpdateItem(params[i].id, Cleanup(params[i].payload))
  }

  /** The error names the first record whose cleanup is empty. */
  predicate RejectsFirstEmpty(params: seq<UpdateRecord>, e: AppError)
  {
    exists i :: 0 <= i < |params| && Cleanup(params[i].payload) == [] &&
      e == AppError(InvalidArgument, EmptyPayloadMessage(params[i].id)) &&
      forall j :: 0 <= j < i ==> Cleanup(params[j].payload) != []
  }

  lemma {:induction false} MapRecordsSpec(params: seq<UpdateRecord>)
    ensures MapRecords(params).Ok? <==> AllNonEmpty(params)
    ensures MapRecords(params).Ok? ==> MappedInOrder(params, MapRecords(params).value)
    ensures MapRecords(params).Err? ==> RejectsFirstEmpty(params, MapRecords(params).error)
  {
    if params != [] {
      var tail := params[1..];
      MapRecordsSpec(tail);
      if Cleanup(params[0].payload) != [] {
        if AllNonEmpty(tail) {
          forall i | 0 <= i < |params| ensures Cleanup(params[i].payload) != [] {
            if i > 0 {
              assert params[i] == tail[i - 1];
            }
          }
        } else {
          var k :| 0 <= k < |tail| && Cleanup(tail[k].payload) == [];
          assert params[k + 1] == tail[k];
          var i :| 0 <= i < |tail| && Cleanup(tail[i].payload) == [] &&
            MapRecords(tail).error == AppError(InvalidArgument, EmptyPayloadMessage(tail[i].id)) &&
            forall j :: 0 <= j < i ==> Cleanup(tail[j].payload) != [];
          assert params[i + 1] == tail[i];
          forall j | 0 <= j < i + 1 ensures Cleanup(params[j].payload) != [] {
            if j > 0 {
              assert params[j] == tail[j - 1];
            }
          }
        }
      }
    }
  }

  /**
   * The update map is produced exactly when there are records and every one
   * keeps a field; it then holds one item per record, in order, with the
   * record's id and its cleaned payload. An empty request is rejected with
   * "No record IDs provided"; otherwise the first record left empty is
   * named in the error.
   */
  lemma BuildUpdateMapSpec(params: seq<UpdateRecord>)
    ensures params == [] ==> BuildUpdateMap(params) == Err(AppError(InvalidArgument, NoIdsMessage))
    ensures BuildUpdateMap(params).Ok? <==> params != [] && AllNonEmpty(params)
    ensures BuildUpdateMap(params).Ok? ==> MappedInOrder(params, BuildUpdateMap(params).value)
    ensures params != [] && BuildUpdateMap(params).Err? ==> RejectsFirstEmpty(params, BuildUpdateMap(params).error)
  {
    MapRecordsSpec(params);
  }
}
