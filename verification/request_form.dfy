/**
 * The new-request form: the field schema, the dependents editor, the total,
 * the submission guards and the request it hands to `createRequest`.
 */
module RequestForm {
  import opened Wrappers
  import opened Seqs
  import opened Schema
  import opened Requests

  /** The validated form fields; `requestType` is the text of the select. */
  datatype FormData = FormData(
    requestType: string,
    description: Option<string>,
    polo: string,
    cpf: string,
    requesterName: string)

  const TypeIssue := "Invalid enum value"
  const PoloIssue := "Polo é obrigatório"
  const CpfIssue := "CPF é obrigatório"
  const NameIssue := "Nome do solicitante é obrigatório"

  /**
   * The messages of `requestSchema` for the given fields, in field order:
   * the type must be one of the five request types, the site and the
   * requester's name non-empty, and the CPF at least 11 characters long.
   */
  function SchemaIssues(f: FormData): (issues: seq<string>)
    ensures TypeIssue in issues <==> f.requestType !in TypeConstants
    ensures PoloIssue in issues <==> |f.polo| < 1
    ensures CpfIssue in issues <==> |f.cpf| < 11
    ensures NameIssue in issues <==> |f.requesterName| < 1
    ensures forall m :: m in issues ==> m in [TypeIssue, PoloIssue, CpfIssue, NameIssue]
  {
    (if ParseType(f.requestType).None? then [TypeIssue] else [])
    + (if |f.polo| < 1 then [PoloIssue] else [])
    + (if |f.cpf| < 11 then [CpfIssue] else [])
    + (if |f.requesterName| < 1 then [NameIssue] else [])
  }

  predicate SchemaValid(f: FormData) {
    |SchemaIssues(f)| == 0
  }

  /** The form's default values: type "outros", the profile's site and name when known, everything else empty. */
  function DefaultValues(profile: Option<UserRow>): (f: FormData)
    ensures f.requestType == "outros" && f.cpf == "" && f.description == Some("")
    ensures profile.Some? && profile.value.polo.Some? ==> f.polo == PoloName(profile.value.polo.value)
    ensures profile.None? || profile.value.polo.None? ==> f.polo == ""
    ensures f.requesterName == if profile.Some? then profile.value.name else ""
  {
    var polo := if profile.Some? && profile.value.polo.Some? then PoloName(profile.value.polo.value) else "";
    var name := if profile.Some? then profile.value.name else "";
    FormData("outros", Some(""), polo, "", name)
  }

  /** The defaults never pass the schema: the CPF starts empty. */
  lemma DefaultsNeedCpf(profile: Option<UserRow>)
    ensures CpfIssue in SchemaIssues(DefaultValues(profile))
    ensures !SchemaValid(DefaultValues(profile))
  {
  }

  /** `addDependent`: one blank dependent at the end. */
  function AddDependent(deps: seq<Dependent>): (r: seq<Dependent>)
    ensures |r| == |deps| + 1 && r[..|deps|] == deps
    ensures r[|deps|] == Dependent("", "")
  {
    deps + [Dependent("", "")]
  }

  /** `removeDependent(index)`: `filter((_, i) => i !== index)`, so an index outside the list removes nothing. */
  function RemoveDependent<T>(deps: seq<T>, index: int): (r: seq<T>)
    ensures 0 <= index < |deps| ==> r == deps[..index] + deps[index + 1..]
    ensures !(0 <= index < |deps|) ==> r == deps
    decreases |deps|
  {
    if |deps| == 0 then []
    else if index == 0 then deps[1..]
    else
      var rest := RemoveDependent(deps[1..], index - 1);
      assert 0 <= index < |deps| ==> deps[1..][..index - 1] + deps[1..][index..] == deps[1..index] + deps[index + 1..];
      assert deps == [deps[0]] + deps[1..];
      [deps[0]] + rest
  }

  datatype DependentField = Name | Relationship

  /** `updateDependent(index, field, value)` on an entry shown in the form. */
  function UpdateDependent(deps: seq<Dependent>, index: nat, field: DependentField, value: string): (r: seq<Dependent>)
    requires index < |deps|
    ensures |r| == |deps|
    ensures forall i :: 0 <= i < |deps| && i != index ==> r[i] == deps[i]
    ensures field == Name ==> r[index] == Dependent(value, deps[index].relationship)
    ensures field == Relationship ==> r[index] == Dependent(deps[index].name, value)
  {
    var d := deps[index];
    deps[index := match field
      case Name => d.(name := value)
      case Relationship => d.(relationship := value)]
  }

  /** Writing back the value a field already holds changes nothing. */
  lemma UpdateWithSameValueIsIdentity(deps: seq<Dependent>, index: nat)
    requires index < |deps|
    ensures UpdateDependent(deps, index, Name, deps[index].name) == deps
    ensures UpdateDependent(deps, index, Relationship, deps[index].relationship) == deps
  {
  }

  /** A dependent with both a name and a relationship. */
  predicate Complete(d: Dependent) {
    d.name != "" && d.relationship != ""
  }

  function IsComplete(d: Dependent): bool { Complete(d) }

  /** `totalAmount`: the sum of the invoice values. */
  function TotalAmount(invoices: seq<FormInvoice>): real {
    Sum(invoices, FormValue)
  }

  /** The form's own state besides the fields. */
  datatype FormState = FormState(
    dependents: seq<Dependent>,
    attachments: seq<FileRef>,
    invoices: seq<FormInvoice>,
    uploading: bool)

  const EmptyState := FormState([], [], [], false)

  datatype SubmitOutcome =
    | NoInvoices
    | MissingCpf
    | MissingName
    | Created(payload: Payload)
    | CreateFailed(message: string)

  /** The request handed to `createRequest`: complete dependents only, no attachments, all invoices. */
  function RequestData(data: FormData, state: FormState, t: RequestType): (r: NewRequest)
    ensures r.amount == TotalAmount(state.invoices)
    ensures r.attachments == Some([])
    ensures r.dependents.Some? && IsSubsequence(r.dependents.value, state.dependents)
    ensures r.dependents.Some? &&
      forall d :: multiset(r.dependents.value)[d] == if Complete(d) then multiset(state.dependents)[d] else 0
    ensures r.invoices == Some(state.invoices)
  {
    FilterSubsequence(state.dependents, IsComplete);
    FilterMultiset(state.dependents, IsComplete);
    NewRequest(t, data.description, TotalAmount(state.invoices), data.polo, data.cpf, data.requesterName,
      Some(Filter(state.dependents, IsComplete)), Some([]), Some(state.invoices))
  }

  /**
   * `onSubmit`: refused without invoices, then without a CPF, then without a
   * name, touching nothing; otherwise the request is created and the
   * dependents, attachments and invoices are cleared, or creation fails and
   * they are kept. Either way the upload flag ends cleared.
   */
  function OnSubmit(data: FormData, state: FormState, profile: Option<UserRow>, insertError: Option<string>)
    : (r: (SubmitOutcome, FormState))
    ensures r.0.NoInvoices? <==> |state.invoices| == 0
    ensures r.0.MissingCpf? <==> |state.invoices| > 0 && data.cpf == ""
    ensures r.0.MissingName? <==> |state.invoices| > 0 && data.cpf != "" && data.requesterName == ""
    ensures r.0.Created? <==>
      |state.invoices| > 0 && data.cpf != "" && data.requesterName != ""
      && ParseType(data.requestType).Some? && profile.Some? && insertError.None?
    ensures r.0.Created? ==>
      && r.0.payload.amount == Sum(r.0.payload.invoices, ItemValue)
      && r.0.payload.amount == TotalAmount(state.invoices)
      && r.0.payload.attachments == []
      && IsSubsequence(r.0.payload.dependents, state.dependents)
      && (forall d :: multiset(r.0.payload.dependents)[d] == if Complete(d) then multiset(state.dependents)[d] else 0)
      && r.0.payload.userId == profile.value.id
      && r.1 == EmptyState
    ensures r.0.NoInvoices? || r.0.MissingCpf? || r.0.MissingName? ==> r.1 == state
    ensures r.0.CreateFailed? ==> r.1 == state.(uploading := false)
  {
    if |state.invoices| == 0 then (NoInvoices, state)
    else if data.cpf == "" then (MissingCpf, state)
    else if data.requesterName == "" then (MissingName, state)
    else match ParseType(data.requestType)
      case None => (CreateFailed("invalid request type"), state.(uploading := false))
      case Some(t) =>
        var request := RequestData(data, state, t);
        match CreateRequest(profile, request, insertError)
        case Success(p) => (Created(p), EmptyState)
        case Failure(m) => (CreateFailed(m), state.(uploading := false))
  }

  /** Data that passed the schema never trips the CPF or name guard. */
  lemma SchemaMakesGuardsRedundant(data: FormData, state: FormState, profile: Option<UserRow>, insertError: Option<string>)
    requires SchemaValid(data)
    ensures var r := OnSubmit(data, state, profile, insertError).0;
      !r.MissingCpf? && !r.MissingName?
    ensures |state.invoices| > 0 && profile.Some? && insertError.None? ==>
      OnSubmit(data, state, profile, insertError).0.Created?
  {
    assert CpfIssue !in SchemaIssues(data) && NameIssue !in SchemaIssues(data) && TypeIssue !in SchemaIssues(data);
  }

  /** The submit button: disabled while uploading or when there is no invoice. */
  predicate SubmitEnabled(state: FormState) {
    !state.uploading && |state.invoices| > 0
  }

  /** An enabled button never leads to the no-invoice refusal. */
  lemma EnabledSubmitHasInvoices(data: FormData, state: FormState, profile: Option<UserRow>, insertError: Option<string>)
    requires SubmitEnabled(state)
    ensures !OnSubmit(data, state, profile, insertError).0.NoInvoices?
  {
  }
}
