/**
 * The dataset upload form of the web frontend (`UploadForm` and `Upload` in
 * `frontend/src/components/Upload/Upload.tsx`). A React component's state is a record that
 * `setState` replaces by merging in the fields it is given; the model keeps that record in a class
 * field and every handler assigns it the merged record. The awaited calls to the server
 * (`api.initialProfile`, `api.upload`, the parent's `onFormSubmit`) split a handler in two
 * methods, before and after the call, and their outcome is a parameter.
 */
module Upload {
  import opened Wrappers
  import opened PyStr
  import opened Json

  // ---------------------------------------------------------------------------
  // Data
  // ---------------------------------------------------------------------------

  datatype ProfilingStatus = Stopped | Running | Successed | Error

  /** The form's `type` prop: a file upload or a URL. */
  datatype FormType = UploadFile | Url

  /** A file chosen in the file input. */
  datatype File = File(id: nat)

  /** A column of the profile: its name, its type, and fields this form does not look at. */
  datatype Column = Column(name: string, structuralType: string, rest: Dict)

  datatype ProfileData = ProfileData(columns: seq<Column>)

  datatype Errors = Errors(file: Option<string>, name: Option<string>, address: Option<string>)

  datatype Validation = Validation(valid: bool, errors: Errors)

  /** `api.UploadData`; `updatedColumns` is sent as the JSON text of `{columns: ...}`. */
  datatype UploadData = UploadData(
    file: Option<File>, address: Option<string>, name: string, description: string, updatedColumns: seq<Column>)

  /** The result of an awaited request: a response, or an exception with its text. */
  datatype Outcome<D> = Response(status: nat, statusText: string, data: D) | Thrown(message: string)

  datatype UploadFormState = UploadFormState(
    address: Option<string>,
    name: string,
    description: string,
    validation: Validation,
    submitting: bool,
    profilingStatus: ProfilingStatus,
    failedProfiler: Option<string>,
    profiledData: Option<ProfileData>,
    columnsName: seq<string>)

  const NoErrors: Errors := Errors(None, None, None)

  const SchemaOrg: string := "http://schema.org/"

  // ---------------------------------------------------------------------------
  // The state transitions of UploadForm
  // ---------------------------------------------------------------------------

  /** `initialState()`, as the constructor installs it: no profile and no profiling failure. */
  function Initial(): UploadFormState
  {
    UploadFormState(Some(""), "", "", Validation(true, NoErrors), false, Stopped, None, None, [])
  }

  /**
   * `setState(initialState())`: the fields of `initialState()` are reset; `profiledData` and
   * `failedProfiler` are not among them and are kept.
   */
  function Reset(s: UploadFormState): (r: UploadFormState)
    ensures r.profiledData == s.profiledData && r.failedProfiler == s.failedProfiler
    ensures r.(profiledData := None, failedProfiler := None) == Initial()
  {
    Initial().(profiledData := s.profiledData, failedProfiler := s.failedProfiler)
  }

  /** `!this.state.address`: no address, or an empty one. */
  predicate NoAddress(address: Option<string>)
  {
    address.None? || address.value == ""
  }

  /** `validate()`. */
  function Validate(formType: FormType, file: Option<File>, s: UploadFormState): (v: Validation)
    ensures v.errors.file.Some? <==> formType == UploadFile && file.None?
    ensures v.errors.address.Some? <==> formType == Url && NoAddress(s.address)
    ensures v.errors.name.Some? <==> s.name == ""
    ensures v.valid <==> v.errors == NoErrors
  {
    var file := if formType == UploadFile && file.None? then Some("File is required") else None;
    var address := if formType == Url && NoAddress(s.address) then Some("URL is required") else None;
    var name := if s.name == "" then Some("Name is required") else None;
    Validation(file.None? && name.None? && address.None?, Errors(file, name, address))
  }

  /** `columns.filter(col => names.includes(col.name))`. */
  function EditedOf(columns: seq<Column>, names: seq<string>): (r: seq<Column>)
    ensures |r| <= |columns|
    ensures forall c :: c in r <==> c in columns && c.name in names
  {
    if columns == [] then []
    else
      var rest := EditedOf(columns[1..], names);
      assert forall c :: c in columns <==> c == columns[0] || c in columns[1..];
      if columns[0].name in names then [columns[0]] + rest else rest
  }

  /** The columns a submit sends: the edited ones of the profile, none when nothing was profiled. */
  function EditedColumns(s: UploadFormState): seq<Column>
  {
    match s.profiledData
    case Some(data) => EditedOf(data.columns, s.columnsName)
    case None => []
  }

  /** The data a valid submit passes to the parent's `onFormSubmit`. */
  function Request(file: Option<File>, s: UploadFormState): (d: UploadData)
    ensures d.name == s.name && d.description == s.description && d.file == file
    ensures d.address.Some? <==> !NoAddress(s.address)
    ensures d.address.Some? ==> d.address == s.address
  {
    UploadData(file, if NoAddress(s.address) then None else s.address, s.name, s.description, EditedColumns(s))
  }

  /** `onFormSubmit`, up to the awaited call: the request sent, if the form is valid, and the new state. */
  function Submit(formType: FormType, file: Option<File>, s: UploadFormState): (UploadFormState, Option<UploadData>)
  {
    var v := Validate(formType, file, s);
    if !v.valid then (s.(validation := v, profilingStatus := Stopped), None)
    else (s.(submitting := true), Some(Request(file, s)))
  }

  /** `onFormSubmit`, after the parent answered. */
  function Submitted(s: UploadFormState, success: bool): UploadFormState
  {
    if success then Reset(s) else s.(submitting := false, profilingStatus := Stopped)
  }

  /** `onProfileData`, up to the awaited call. */
  function ProfileStarted(s: UploadFormState): UploadFormState
  {
    s.(profilingStatus := Running)
  }

  /** `Error <status>: <statusText>`. */
  function HttpError(status: nat, statusText: string): string
  {
    "Error " + Decimal(status) + ": " + statusText
  }

  /** The text a failed request leaves; `None` on status 200. */
  function Failure<D>(outcome: Outcome<D>): (r: Option<string>)
    ensures r.None? <==> outcome.Response? && outcome.status == 200
  {
    match outcome
    case Response(status, statusText, _) => if status == 200 then None else Some(HttpError(status, statusText))
    case Thrown(message) => Some(message)
  }

  /** `onProfileData`, after `api.initialProfile` answered. */
  function Profiled(s: UploadFormState, outcome: Outcome<ProfileData>): UploadFormState
  {
    match Failure(outcome)
    case None => s.(profiledData := Some(outcome.data), profilingStatus := Successed)
    case Some(message) => s.(failedProfiler := Some(message), profilingStatus := Error)
  }

  /** The column map of `updateColumnType`. */
  function Retyped(columns: seq<Column>, name: string, value: string): (r: seq<Column>)
    ensures |r| == |columns|
  {
    seq(|columns|, i requires 0 <= i < |columns| =>
      if columns[i].name == name then columns[i].(structuralType := SchemaOrg + value) else columns[i])
  }

  /** `updateColumnType(value, column)`: nothing happens when there is no profile. */
  function ColumnTypeUpdated(s: UploadFormState, value: string, column: Column): UploadFormState
  {
    match s.profiledData
    case Some(data) =>
      s.(columnsName := s.columnsName + [column.name], profiledData := Some(ProfileData(Retyped(data.columns, column.name, value))))
    case None => s
  }

  // ---------------------------------------------------------------------------
  // Properties of the transitions
  // ---------------------------------------------------------------------------

  /** A successful profile always comes with its data. */
  predicate Consistent(s: UploadFormState)
  {
    s.profilingStatus == Successed ==> s.profiledData.Some?
  }

  /** Every transition keeps a state consistent. */
  lemma TransitionsKeepConsistent(s: UploadFormState, formType: FormType, file: Option<File>, success: bool,
                                  outcome: Outcome<ProfileData>, value: string, column: Column)
    requires Consistent(s)
    ensures Consistent(Initial())
    ensures Consistent(Submit(formType, file, s).0)
    ensures Consistent(Submitted(s, success))
    ensures Consistent(ProfileStarted(s))
    ensures Consistent(Profiled(s, outcome))
    ensures Consistent(ColumnTypeUpdated(s, value, column))
  {
  }

  /**
   * An invalid submit sends nothing, stores the validation and stops the profiling status; a valid one
   * sends the form's fields and only raises `submitting`.
   */
  lemma SubmitOutcome(formType: FormType, file: Option<File>, s: UploadFormState)
    ensures var (t, request) := Submit(formType, file, s);
      var v := Validate(formType, file, s);
      && (request.None? <==> !v.valid)
      && (!v.valid ==> t == s.(validation := v, profilingStatus := Stopped))
      && (v.valid ==> t == s.(submitting := true) && request.value.name == s.name != "")
      && (v.valid && formType == UploadFile ==> request.value.file.Some?)
      && (v.valid && formType == Url ==> request.value.address.Some?)
  {
  }

  /**
   * The columns sent are those of the profile whose name was edited, in profile order: filtering a
   * concatenation concatenates the filtered parts.
   */
  lemma {:induction false} EditedInOrder(a: seq<Column>, b: seq<Column>, names: seq<string>)
    ensures EditedOf(a + b, names) == EditedOf(a, names) + EditedOf(b, names)
  {
    if a != [] {
      assert (a + b)[1..] == a[1..] + b;
      EditedInOrder(a[1..], b, names);
    } else {
      assert a + b == b;
    }
  }

  /** With nothing profiled, or nothing edited, no column is sent. */
  lemma NothingEditedSendsNone(s: UploadFormState)
    requires s.profiledData.None? || s.columnsName == []
    ensures EditedColumns(s) == []
  {
    if s.profiledData.Some? && s.columnsName == [] {
      NoNamesNoneEdited(s.profiledData.value.columns);
    }
  }

  lemma {:induction false} NoNamesNoneEdited(columns: seq<Column>)
    ensures EditedOf(columns, []) == []
  {
    if columns != [] {
      NoNamesNoneEdited(columns[1..]);
    }
  }

  /**
   * After a submit: success resets every field of `initialState()` and keeps the profile; failure
   * only lowers `submitting` and stops the profiling status.
   */
  lemma SubmittedOutcome(s: UploadFormState, success: bool)
    ensures var t := Submitted(s, success);
      && (success ==> !t.submitting && t.profilingStatus == Stopped && t.columnsName == [] && t.name == ""
                      && t.validation.valid && t.profiledData == s.profiledData)
      && (!success ==> t.(submitting := s.submitting, profilingStatus := s.profilingStatus) == s
                       && !t.submitting && t.profilingStatus == Stopped)
  {
  }

  /**
   * The profiling status ends in `SUCCESSED` with the data exactly on status 200, and otherwise in
   * `ERROR` with the failure text, the profile being kept.
   */
  lemma ProfiledOutcome(s: UploadFormState, outcome: Outcome<ProfileData>)
    ensures var t := Profiled(s, outcome);
      && (t.profilingStatus == Successed <==> outcome.Response? && outcome.status == 200)
      && (t.profilingStatus == Successed ==> t.profiledData == Some(outcome.data))
      && (t.profilingStatus != Successed ==>
            t.profilingStatus == Error && t.failedProfiler == Failure(outcome) && t.profiledData == s.profiledData)
      && t.columnsName == s.columnsName && t.name == s.name
  {
  }

  /** Different statuses or status texts give different error texts. */
  lemma {:induction false} HttpErrorInjective(a: nat, ta: string, b: nat, tb: string)
    requires HttpError(a, ta) == HttpError(b, tb)
    ensures a == b && ta == tb
  {
    var da, db := Decimal(a), Decimal(b);
    assert "Error " + da + ": " + ta == "Error " + (da + (": " + ta));
    assert "Error " + db + ": " + tb == "Error " + (db + (": " + tb));
    assert da + (": " + ta) == (HttpError(a, ta))[6..];
    assert db + (": " + tb) == (HttpError(b, tb))[6..];
    DigitsThenColon(da, ta, db, tb);
    DecimalInjective(a, b);
  }

  /** Digits followed by `": "` and a text: the digits end where the colon is. */
  lemma DigitsThenColon(da: string, ta: string, db: string, tb: string)
    requires forall k :: 0 <= k < |da| ==> IsDigit(da[k])
    requires forall k :: 0 <= k < |db| ==> IsDigit(db[k])
    requires da + (": " + ta) == db + (": " + tb)
    ensures da == db && ta == tb
  {
    var x := da + (": " + ta);
    LeadingDigitsOf(da, ": " + ta);
    LeadingDigitsOf(db, ": " + tb);
    assert da == x[..|da|] == db;
    assert ta == x[|da| + 2..] == tb;
  }

  /** The number of digits `s` starts with. */
  function LeadingDigits(s: string): nat
  {
    if s != [] && IsDigit(s[0]) then 1 + LeadingDigits(s[1..]) else 0
  }

  lemma {:induction false} LeadingDigitsOf(d: string, rest: string)
    requires forall k :: 0 <= k < |d| ==> IsDigit(d[k])
    requires rest != [] && !IsDigit(rest[0])
    ensures LeadingDigits(d + rest) == |d|
  {
    if d != [] {
      assert (d + rest)[1..] == d[1..] + rest;
      LeadingDigitsOf(d[1..], rest);
    } else {
      assert d + rest == rest;
    }
  }

  /**
   * `updateColumnType` gives every column with the edited name the type `http://schema.org/<value>`,
   * leaves the others equal, and records the name.
   */
  lemma ColumnTypeUpdatedOutcome(s: UploadFormState, value: string, column: Column)
    requires s.profiledData.Some?
    ensures var t := ColumnTypeUpdated(s, value, column);
      var before := s.profiledData.value.columns;
      && t.profiledData.Some? && |t.profiledData.value.columns| == |before|
      && (forall i :: 0 <= i < |before| ==>
            var c := t.profiledData.value.columns[i];
            c.name == before[i].name && c.rest == before[i].rest
            && (before[i].name == column.name ==> c.structuralType == SchemaOrg + value)
            && (before[i].name != column.name ==> c == before[i]))
      && t.columnsName == s.columnsName + [column.name]
  {
  }

  /** Without a profile, `updateColumnType` changes nothing. */
  lemma ColumnTypeUpdateWithoutProfile(s: UploadFormState, value: string, column: Column)
    requires s.profiledData.None?
    ensures ColumnTypeUpdated(s, value, column) == s
  {
  }

  /** A retyped column is among those the next submit sends, with its new type. */
  lemma {:induction false} RetypedIsSent(s: UploadFormState, value: string, column: Column, i: nat)
    requires s.profiledData.Some? && i < |s.profiledData.value.columns|
    requires s.profiledData.value.columns[i].name == column.name
    ensures var t := ColumnTypeUpdated(s, value, column);
      t.profiledData.value.columns[i] in EditedColumns(t)
      && t.profiledData.value.columns[i].structuralType == SchemaOrg + value
  {
    var t := ColumnTypeUpdated(s, value, column);
    assert column.name in t.columnsName;
    assert t.profiledData.value.columns[i] in t.profiledData.value.columns;
  }

  /**
   * A new profile keeps the names edited in the previous one, so `columnsName` can name columns the
   * profile does not have.
   */
  lemma StaleColumnNames(s: UploadFormState, data: ProfileData)
    requires s.columnsName == ["a"] && data.columns == []
    ensures var t := Profiled(s, Response(200, "OK", data));
      t.columnsName == ["a"] && forall c :: c in t.profiledData.value.columns ==> c.name != "a"
  {
  }

  // ---------------------------------------------------------------------------
  // The components
  // ---------------------------------------------------------------------------

  /** `UploadForm`: its `type` prop, the file input's current file, and its state. */
  class UploadForm {
    const formType: FormType
    var selectedFile: Option<File>
    var state: UploadFormState

    constructor(formType: FormType)
      ensures this.formType == formType && state == Initial() && selectedFile.None?
    {
      this.formType := formType;
      selectedFile := None;
      state := Initial();
    }

    /** `onFormSubmit`, up to `await this.props.onFormSubmit(...)`: the data passed, if any. */
    method OnFormSubmit() returns (request: Option<UploadData>)
      modifies this
      ensures (state, request) == Submit(formType, selectedFile, old(state))
      ensures selectedFile == old(selectedFile)
    {
      var validation := Validate(formType, selectedFile, state);
      if !validation.valid {
        state := state.(validation := validation, profilingStatus := Stopped);
        request := None;
      } else {
        request := Some(Request(selectedFile, state));
        state := state.(submitting := true);
      }
    }

    /** `onFormSubmit`, once the parent answered `success`. */
    method OnFormSubmitted(success: bool)
      modifies this
      ensures state == Submitted(old(state), success) && selectedFile == old(selectedFile)
    {
      if success {
        state := Reset(state);
      } else {
        state := state.(submitting := false, profilingStatus := Stopped);
      }
    }

    /** `onProfileData`, up to `await api.initialProfile(...)`: the file, address and name sent. */
    method OnProfileData() returns (file: Option<File>, address: Option<string>, name: string)
      modifies this
      ensures state == ProfileStarted(old(state)) && selectedFile == old(selectedFile)
      ensures file == selectedFile && name == state.name
      ensures address == if NoAddress(state.address) then None else state.address
    {
      state := state.(profilingStatus := Running);
      file := selectedFile;
      address := if NoAddress(state.address) then None else state.address;
      name := state.name;
    }

    /** `onProfileData`, once `api.initialProfile` answered: whether it succeeded. */
    method OnProfileAnswered(outcome: Outcome<ProfileData>) returns (ok: bool)
      modifies this
      ensures state == Profiled(old(state), outcome) && selectedFile == old(selectedFile)
      ensures ok <==> outcome.Response? && outcome.status == 200
    {
      ok := false;
      match outcome {
        case Response(status, statusText, data) =>
          if status == 200 {
            state := state.(profiledData := Some(data), profilingStatus := Successed);
            return true;
          }
          state := state.(failedProfiler := Some(HttpError(status, statusText)), profilingStatus := Error);
        case Thrown(message) =>
          state := state.(failedProfiler := Some(message), profilingStatus := Error);
      }
    }

    method UpdateColumnType(value: string, column: Column)
      modifies this
      ensures state == ColumnTypeUpdated(old(state), value, column) && selectedFile == old(selectedFile)
    {
      if state.profiledData.Some? {
        var modified := Retyped(state.profiledData.value.columns, column.name, value);
        state := state.(columnsName := state.columnsName + [column.name],
                        profiledData := Some(state.profiledData.value.(columns := modified)));
      }
    }
  }

  /** `Upload`: the selected tab and the outcome of the last upload. */
  class UploadPage {
    var tab: FormType
    var success: Option<bool>
    var failed: Option<string>

    constructor()
      ensures tab == UploadFile && success.None? && failed.None?
    {
      tab := UploadFile;
      success := None;
      failed := None;
    }

    /** `Upload.onFormSubmit`, once `api.upload` answered: true only on status 200. */
    method OnFormSubmit(outcome: Outcome<()>) returns (ok: bool)
      modifies this
      ensures ok <==> outcome.Response? && outcome.status == 200
      ensures ok ==> success == Some(true) && failed == old(failed)
      ensures !ok ==> failed == Failure(outcome) && success == old(success)
      ensures tab == old(tab)
    {
      ok := false;
      match outcome {
        case Response(status, statusText, _) =>
          if status == 200 {
            success := Some(true);
            return true;
          }
          failed := Some(HttpError(status, statusText));
        case Thrown(message) =>
          failed := Some(message);
      }
    }
  }
}
