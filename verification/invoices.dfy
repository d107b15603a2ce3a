/**
 * The invoice list editor: saving a card (editing the invoice being edited,
 * or appending a new one with a fresh id), deleting by id, and the running
 * total. `onChange` is modelled by returning the list it is called with.
 */
module InvoiceManager {
  import opened Wrappers
  import opened Seqs
  import opened Schema

  /**
   * What a card hands to `onSave`: the invoice it was opened on, edited, or
   * the blank draft of a new card, which has no `id` key.
   */
  datatype InvoiceDraft = InvoiceDraft(
    id: Option<string>,
    value: real,
    beneficiary: string,
    sessions: Option<int>,
    description: string,
    fileName: Option<string>,
    file: Option<FileRef>)

  /** The editor's state: the list, the id of the card being edited, and whether the new-invoice card is open. */
  datatype Editor = Editor(invoices: seq<FormInvoice>, editingId: Option<string>, showNewForm: bool)

  /** `{ ...inv, ...data }`: every key of the draft overwrites; the id survives unless the draft carries one. */
  function Merge(inv: FormInvoice, d: InvoiceDraft): (r: FormInvoice)
    ensures r.id == d.id.GetOr(inv.id)
    ensures r.value == d.value && r.beneficiary == d.beneficiary && r.description == d.description
    ensures r.sessions == d.sessions && r.fileName == d.fileName && r.file == d.file
  {
    FormInvoice(d.id.GetOr(inv.id), d.value, d.beneficiary, d.sessions, d.description, d.fileName, d.file)
  }

  /** `{ id: freshId, ...data }`: a new invoice, whose id is the fresh one unless the draft carries its own. */
  function NewInvoice(d: InvoiceDraft, freshId: string): (r: FormInvoice)
    ensures d.id.None? ==> r.id == freshId
    ensures r == Merge(FormInvoice(freshId, 0.0, "", None, "", None, None), d)
  {
    FormInvoice(d.id.GetOr(freshId), d.value, d.beneficiary, d.sessions, d.description, d.fileName, d.file)
  }

  function EditWhere(invoices: seq<FormInvoice>, id: string, d: InvoiceDraft): (r: seq<FormInvoice>)
    ensures |r| == |invoices|
    ensures forall i :: 0 <= i < |invoices| ==>
      r[i] == if invoices[i].id == id then Merge(invoices[i], d) else invoices[i]
  {
    seq(|invoices|, i requires 0 <= i < |invoices| =>
      if invoices[i].id == id then Merge(invoices[i], d) else invoices[i])
  }

  /**
   * `handleSaveInvoice`: while an invoice is being edited (a non-empty
   * `editingId`) the draft is merged into every invoice with that id and the
   * editing ends; otherwise the draft is appended as a new invoice and the
   * new-invoice card closes. The second component is the list `onChange`
   * receives.
   */
  function SaveInvoice(e: Editor, d: InvoiceDraft, freshId: string): (r: (Editor, seq<FormInvoice>))
    ensures r.1 == r.0.invoices
    ensures Truthy(e.editingId) ==>
      && |r.0.invoices| == |e.invoices|
      && r.0.editingId.None?
      && r.0.showNewForm == e.showNewForm
      && (forall i :: 0 <= i < |e.invoices| && e.invoices[i].id != e.editingId.value ==> r.0.invoices[i] == e.invoices[i])
      && (forall i :: 0 <= i < |e.invoices| && e.invoices[i].id == e.editingId.value ==>
            r.0.invoices[i] == Merge(e.invoices[i], d))
    ensures !Truthy(e.editingId) ==>
      && |r.0.invoices| == |e.invoices| + 1
      && r.0.invoices[..|e.invoices|] == e.invoices
      && r.0.invoices[|e.invoices|] == NewInvoice(d, freshId)
      && !r.0.showNewForm
      && r.0.editingId == e.editingId
  {
    if Truthy(e.editingId) then
      var updated := EditWhere(e.invoices, e.editingId.value, d);
      (e.(invoices := updated, editingId := None), updated)
    else
      var updated := e.invoices + [NewInvoice(d, freshId)];
      (e.(invoices := updated, showNewForm := false), updated)
  }

  function IdIsNot(id: string): FormInvoice -> bool {
    (inv: FormInvoice) => inv.id != id
  }

  function IdIs(id: string): FormInvoice -> bool {
    (inv: FormInvoice) => inv.id == id
  }

  /** `handleDeleteInvoice`: every invoice with that id goes, the rest keep their order. */
  function DeleteInvoice(e: Editor, id: string): (r: (Editor, seq<FormInvoice>))
    ensures r.1 == r.0.invoices
    ensures r.0.editingId == e.editingId && r.0.showNewForm == e.showNewForm
    ensures forall inv :: inv in r.0.invoices <==> inv in e.invoices && inv.id != id
    ensures forall inv: FormInvoice :: inv.id != id ==> multiset(r.0.invoices)[inv] == multiset(e.invoices)[inv]
    ensures IsSubsequence(r.0.invoices, e.invoices)
  {
    var kept := Filter(e.invoices, IdIsNot(id));
    FilterMultiset(e.invoices, IdIsNot(id));
    FilterSubsequence(e.invoices, IdIsNot(id));
    (e.(invoices := kept), kept)
  }

  function InvoiceValue(inv: FormInvoice): real { inv.value }

  /** `totalValue`: the sum of the invoice values. */
  function Total(invoices: seq<FormInvoice>): real {
    Sum(invoices, InvoiceValue)
  }

  /** Adding an invoice raises the total by exactly its value. */
  lemma TotalAfterAdd(e: Editor, d: InvoiceDraft, freshId: string)
    requires !Truthy(e.editingId)
    ensures Total(SaveInvoice(e, d, freshId).0.invoices) == Total(e.invoices) + d.value
  {
    var after := SaveInvoice(e, d, freshId).0.invoices;
    assert after == e.invoices + [NewInvoice(d, freshId)];
    assert after[..|after| - 1] == e.invoices;
  }

  /** The total is the total of the invoices a delete keeps plus the total of those it removes. */
  lemma {:induction false} TotalAfterDelete(e: Editor, id: string)
    ensures Total(e.invoices) == Total(DeleteInvoice(e, id).0.invoices) + Total(Filter(e.invoices, IdIs(id)))
  {
    SumFilterPartition(e.invoices, IdIsNot(id), InvoiceValue);
    FilterSame(e.invoices, Not(IdIsNot(id)), IdIs(id));
  }

  /** Deleting a newly added invoice by its fresh id undoes the add, when the id was not used before. */
  lemma {:induction false} DeleteUndoesAdd(e: Editor, d: InvoiceDraft, freshId: string)
    requires !Truthy(e.editingId) && d.id.None?
    requires forall i :: 0 <= i < |e.invoices| ==> e.invoices[i].id != freshId
    ensures DeleteInvoice(SaveInvoice(e, d, freshId).0, freshId).0.invoices == e.invoices
  {
    var added := NewInvoice(d, freshId);
    FilterAll(e.invoices, IdIsNot(freshId));
    FilterAppendRejected(e.invoices, added, IdIsNot(freshId));
  }

  /**
   * Saving the new-invoice card while another invoice is being edited does
   * not add anything: the blank card's data is merged into the edited one.
   */
  lemma NewCardSavedWhileEditingOverwrites(e: Editor, d: InvoiceDraft, freshId: string)
    requires Truthy(e.editingId) && d.id.None?
    ensures |SaveInvoice(e, d, freshId).0.invoices| == |e.invoices|
    ensures forall i :: 0 <= i < |e.invoices| && e.invoices[i].id == e.editingId.value ==>
      SaveInvoice(e, d, freshId).0.invoices[i] == FormInvoice(e.invoices[i].id, d.value, d.beneficiary, d.sessions, d.description, d.fileName, d.file)
  {
  }
}

/**
 * One invoice card: the draft it edits, the required-field check before
 * saving, choosing a file, reading the number inputs, and when the delete
 * button shows.
 */
module InvoiceCard {
  import opened Wrappers
  import opened Text
  import opened Schema
  import opened InvoiceManager

  /** The draft of a card opened without an invoice: value 0, empty texts, 0 sessions, no file. */
  const BlankDraft := InvoiceDraft(None, 0.0, "", Some(0), "", Some(""), None)

  /** The card's initial draft: the invoice it shows, or the blank draft. */
  function InitialDraft(invoice: Option<InvoiceDraft>): (d: InvoiceDraft)
    ensures invoice.Some? ==> d == invoice.value
    ensures invoice.None? ==> d.value == 0.0 && d.beneficiary == "" && d.description == ""
  {
    invoice.GetOr(BlankDraft)
  }

  /** The value, the beneficiary and the description are all truthy. */
  predicate CanSave(d: InvoiceDraft) {
    d.value != 0.0 && d.beneficiary != "" && d.description != ""
  }

  datatype SaveOutcome =
    | Refused                                       // a toast, `onSave` not called
    | Saved(data: InvoiceDraft, toggled: bool)      // `onSave(data)`, then `onEditToggle` if given

  /** `handleSave`. */
  function HandleSave(d: InvoiceDraft, hasEditToggle: bool): (r: SaveOutcome)
    ensures r.Refused? <==> d.value == 0.0 || d.beneficiary == "" || d.description == ""
    ensures r.Saved? ==> r.data == d && r.toggled == hasEditToggle
  {
    if !CanSave(d) then Refused else Saved(d, hasEditToggle)
  }

  /** A card opened blank cannot be saved before something is typed into it. */
  lemma BlankCardIsRefused(hasEditToggle: bool)
    ensures HandleSave(InitialDraft(None), hasEditToggle) == Refused
  {
  }

  /** `handleFileChange`: a chosen file sets `file` and `fileName`; no file changes nothing. */
  function ChooseFile(d: InvoiceDraft, chosen: Option<FileRef>): (r: InvoiceDraft)
    ensures chosen.None? ==> r == d
    ensures chosen.Some? ==> r.file == chosen && r.fileName == Some(chosen.value.name)
    ensures r.(file := d.file, fileName := d.fileName) == d
  {
    match chosen
    case None => d
    case Some(f) => d.(file := Some(f), fileName := Some(f.name))
  }

  /**
   * `parseFloat(text) || 0` with the parse given: `None` is NaN. NaN and
   * zero both become 0.
   */
  function ValueFromInput(parsed: Option<real>): (v: real)
    ensures parsed.None? ==> v == 0.0
    ensures parsed.Some? ==> v == parsed.value
  {
    match parsed
    case None => 0.0
    case Some(x) => if x != 0.0 then x else 0.0
  }

  /** `parseInt(text) || 0`: text that does not start with a number gives 0. */
  function SessionsFromInput(text: string): (n: int)
    ensures ParseIntPrefix(text).None? ==> n == 0
    ensures ParseIntPrefix(text).Some? ==> n == ParseIntPrefix(text).value
  {
    match ParseIntPrefix(text)
    case None => 0
    case Some(k) => if k != 0 then k else 0
  }

  /** Typing the decimal text of a count gives that count back as the sessions. */
  lemma SessionsRoundTrip(n: nat)
    ensures SessionsFromInput(NatToString(n)) == n
  {
    NatToStringRoundTrip(n);
  }

  /** Text with no digits after the optional sign gives 0 sessions. */
  lemma SessionsWithoutDigits(text: string)
    requires forall i :: 0 <= i < |text| ==> !IsDigit(text[i])
    ensures SessionsFromInput(text) == 0
  {
    var t := TrimStart(text);
    assert forall i :: 0 <= i < |t| ==> t[i] == text[|text| - |t| + i];
    if NumberBody(text) != [] {
      assert NumberBody(text)[0] in text;
    }
  }

  /** The typed value replaces the draft's value and nothing else. */
  function SetValue(d: InvoiceDraft, parsed: Option<real>): (r: InvoiceDraft)
    ensures r.value == ValueFromInput(parsed)
    ensures r.(value := d.value) == d
  {
    d.(value := ValueFromInput(parsed))
  }

  /** The typed sessions replace the draft's sessions and nothing else. */
  function SetSessions(d: InvoiceDraft, text: string): (r: InvoiceDraft)
    ensures r.sessions == Some(SessionsFromInput(text))
    ensures r.(sessions := d.sessions) == d
  {
    d.(sessions := Some(SessionsFromInput(text)))
  }

  /** `onDelete && invoice?.id`: a delete handler is given and the invoice has a non-empty id. */
  predicate ShowsDeleteButton(hasOnDelete: bool, invoice: Option<InvoiceDraft>) {
    hasOnDelete && invoice.Some? && Truthy(invoice.value.id)
  }

  /** A blank card never offers deletion. */
  lemma BlankCardHasNoDeleteButton(hasOnDelete: bool)
    ensures !ShowsDeleteButton(hasOnDelete, None)
    ensures !ShowsDeleteButton(hasOnDelete, Some(BlankDraft))
  {
  }
}
