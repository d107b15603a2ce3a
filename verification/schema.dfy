/**
 * The domain of the request/approval workflow as the database schema
 * declares it: the four enums with their text values and constant lists,
 * and the rows of `users`, `requests`, `user_polo_permissions` and
 * `invoices`, with the nullable columns as `Option`s.
 */
module Schema {
  import opened Wrappers
  import opened Seqs

  /** `polo_name`: the four work sites. */
  datatype Polo = Sumare | Manaus | RibeiraoPreto | Itapetininga

  /** `request_status`. */
  datatype RequestStatus = Pending | Approved | Rejected

  /** `request_type`. */
  datatype RequestType = Psicologico | Medico | Odontologico | Fisioterapia | Outros

  /** `user_role`. */
  datatype UserRole = Solicitante | Gestora | Admin

  function PoloName(p: Polo): string {
    match p
    case Sumare => "3M Sumaré"
    case Manaus => "3M Manaus"
    case RibeiraoPreto => "3M Ribeirão Preto"
    case Itapetininga => "3M Itapetininga"
  }

  function StatusName(s: RequestStatus): string {
    match s
    case Pending => "pending"
    case Approved => "approved"
    case Rejected => "rejected"
  }

  function TypeName(t: RequestType): string {
    match t
    case Psicologico => "psicológico"
    case Medico => "médico"
    case Odontologico => "odontológico"
    case Fisioterapia => "fisioterapia"
    case Outros => "outros"
  }

  function RoleName(r: UserRole): string {
    match r
    case Solicitante => "solicitante"
    case Gestora => "gestora"
    case Admin => "admin"
  }

  /** `Constants.public.Enums`: the runtime lists of enum values, in declaration order. */
  const PoloConstants: seq<string> := ["3M Sumaré", "3M Manaus", "3M Ribeirão Preto", "3M Itapetininga"]
  const StatusConstants: seq<string> := ["pending", "approved", "rejected"]
  const TypeConstants: seq<string> := ["psicológico", "médico", "odontológico", "fisioterapia", "outros"]
  const RoleConstants: seq<string> := ["solicitante", "gestora", "admin"]

  /** Every value of each enum, in declaration order. */
  const AllPolos: seq<Polo> := [Sumare, Manaus, RibeiraoPreto, Itapetininga]
  const AllStatuses: seq<RequestStatus> := [Pending, Approved, Rejected]
  const AllTypes: seq<RequestType> := [Psicologico, Medico, Odontologico, Fisioterapia, Outros]
  const AllRoles: seq<UserRole> := [Solicitante, Gestora, Admin]

  /** Reads a site name; only the four listed texts are site names. */
  function ParsePolo(s: string): (r: Option<Polo>)
    ensures r.Some? <==> s in PoloConstants
    ensures r.Some? ==> PoloName(r.value) == s
  {
    if s == PoloName(Sumare) then Some(Sumare)
    else if s == PoloName(Manaus) then Some(Manaus)
    else if s == PoloName(RibeiraoPreto) then Some(RibeiraoPreto)
    else if s == PoloName(Itapetininga) then Some(Itapetininga)
    else None
  }

  function ParseStatus(s: string): (r: Option<RequestStatus>)
    ensures r.Some? <==> s in StatusConstants
    ensures r.Some? ==> StatusName(r.value) == s
  {
    if s == "pending" then Some(Pending)
    else if s == "approved" then Some(Approved)
    else if s == "rejected" then Some(Rejected)
    else None
  }

  function ParseType(s: string): (r: Option<RequestType>)
    ensures r.Some? <==> s in TypeConstants
    ensures r.Some? ==> TypeName(r.value) == s
  {
    if s == TypeName(Psicologico) then Some(Psicologico)
    else if s == TypeName(Medico) then Some(Medico)
    else if s == TypeName(Odontologico) then Some(Odontologico)
    else if s == TypeName(Fisioterapia) then Some(Fisioterapia)
    else if s == "outros" then Some(Outros)
    else None
  }

  function ParseRole(s: string): (r: Option<UserRole>)
    ensures r.Some? <==> s in RoleConstants
    ensures r.Some? ==> RoleName(r.value) == s
  {
    if s == "solicitante" then Some(Solicitante)
    else if s == "gestora" then Some(Gestora)
    else if s == "admin" then Some(Admin)
    else None
  }

  /**
   * The site enum has exactly four values, and the constant list names
   * exactly those four, in the same order, without repetition.
   */
  lemma PoloEnumMatchesConstants()
    ensures forall p: Polo :: p in AllPolos
    ensures |AllPolos| == 4 && NoDuplicates(AllPolos)
    ensures Map(AllPolos, PoloName) == PoloConstants
    ensures NoDuplicates(PoloConstants)
    ensures forall p: Polo :: ParsePolo(PoloName(p)) == Some(p)
  {
    forall p: Polo ensures p in AllPolos {
      match p
      case Sumare => assert AllPolos[0] == p;
      case Manaus => assert AllPolos[1] == p;
      case RibeiraoPreto => assert AllPolos[2] == p;
      case Itapetininga => assert AllPolos[3] == p;
    }
    assert Map(AllPolos, PoloName) == PoloConstants;
  }

  /** The status enum is exactly pending/approved/rejected, in the type and in the constants. */
  lemma StatusEnumMatchesConstants()
    ensures forall s: RequestStatus :: s in AllStatuses
    ensures |AllStatuses| == 3 && NoDuplicates(AllStatuses)
    ensures Map(AllStatuses, StatusName) == StatusConstants
    ensures NoDuplicates(StatusConstants)
    ensures forall s: RequestStatus :: ParseStatus(StatusName(s)) == Some(s)
  {
    forall s: RequestStatus ensures s in AllStatuses {
      match s
      case Pending => assert AllStatuses[0] == s;
      case Approved => assert AllStatuses[1] == s;
      case Rejected => assert AllStatuses[2] == s;
    }
    assert Map(AllStatuses, StatusName) == StatusConstants;
  }

  /** The request type enum has exactly five values, in the type and in the constants. */
  lemma TypeEnumMatchesConstants()
    ensures forall t: RequestType :: t in AllTypes
    ensures |AllTypes| == 5 && NoDuplicates(AllTypes)
    ensures Map(AllTypes, TypeName) == TypeConstants
    ensures NoDuplicates(TypeConstants)
    ensures forall t: RequestType :: ParseType(TypeName(t)) == Some(t)
  {
    forall t: RequestType ensures t in AllTypes {
      match t
      case Psicologico => assert AllTypes[0] == t;
      case Medico => assert AllTypes[1] == t;
      case Odontologico => assert AllTypes[2] == t;
      case Fisioterapia => assert AllTypes[3] == t;
      case Outros => assert AllTypes[4] == t;
    }
    assert Map(AllTypes, TypeName) == TypeConstants;
  }

  /** The role enum is exactly solicitante/gestora/admin, in the type and in the constants. */
  lemma RoleEnumMatchesConstants()
    ensures forall r: UserRole :: r in AllRoles
    ensures |AllRoles| == 3 && NoDuplicates(AllRoles)
    ensures Map(AllRoles, RoleName) == RoleConstants
    ensures NoDuplicates(RoleConstants)
    ensures forall r: UserRole :: ParseRole(RoleName(r)) == Some(r)
  {
    forall r: UserRole ensures r in AllRoles {
      match r
      case Solicitante => assert AllRoles[0] == r;
      case Gestora => assert AllRoles[1] == r;
      case Admin => assert AllRoles[2] == r;
    }
    assert Map(AllRoles, RoleName) == RoleConstants;
  }

  /** A JSON value, for the `Json` columns whose shape the database does not fix. */
  datatype Json =
    | JNull
    | JBool(b: bool)
    | JNumber(n: real)
    | JString(s: string)
    | JArray(items: seq<Json>)
    | JObject(fields: seq<(string, Json)>)

  /** A `users` row; `polo` may be null (a user without a home site). */
  datatype UserRow = UserRow(
    id: string,
    authId: string,
    email: string,
    name: string,
    department: Option<string>,
    phone: Option<string>,
    polo: Option<Polo>,
    privacyConsent: bool,
    role: UserRole)

  /** The requester columns joined into a request through `requests_user_id_fkey`. */
  datatype Requester = Requester(name: string, email: string, department: Option<string>, polo: Option<Polo>)

  /** One invoice item as stored inside a request: the six fields the client keeps. */
  datatype InvoiceItem = InvoiceItem(
    id: string,
    value: real,
    beneficiary: string,
    sessions: Option<int>,
    description: string,
    fileName: Option<string>)

  datatype Dependent = Dependent(name: string, relationship: string)

  /**
   * A `requests` row, with the joined requester. `polo` is always a site;
   * `approved_at`, `approved_by` and `rejection_reason` may be null.
   */
  datatype RequestRow = RequestRow(
    id: string,
    userId: string,
    requestType: RequestType,
    description: Option<string>,
    amount: real,
    status: RequestStatus,
    approvedBy: Option<string>,
    approvedAt: Option<int>,
    rejectionReason: Option<string>,
    createdAt: int,
    polo: Polo,
    cpf: string,
    requesterName: Option<string>,
    attachments: seq<string>,
    invoices: seq<InvoiceItem>,
    dependents: Json,
    requester: Option<Requester>)

  /** A `user_polo_permissions` row: one extra site granted to one user. */
  datatype PermissionRow = PermissionRow(id: string, userId: string, polo: Polo, grantedBy: Option<string>)

  /** An `invoices` table row: an uploaded file attached to a request. */
  datatype InvoiceFile = InvoiceFile(
    id: string,
    requestId: string,
    fileName: string,
    fileUrl: string,
    fileSize: Option<int>,
    mimeType: Option<string>)

  /** A chosen file, as the browser's `File` object exposes it. */
  datatype FileRef = FileRef(name: string, size: nat)

  /** An invoice being composed in the form, which may still hold the chosen file. */
  datatype FormInvoice = FormInvoice(
    id: string,
    value: real,
    beneficiary: string,
    sessions: Option<int>,
    description: string,
    fileName: Option<string>,
    file: Option<FileRef>)

  /** A JavaScript string is truthy exactly when it is not empty. */
  predicate Truthy(s: Option<string>) {
    s.Some? && s.value != ""
  }

  /** `a || b` on nullable strings. */
  function OrElse(a: Option<string>, b: string): (r: string)
    ensures Truthy(a) ==> r == a.value
    ensures !Truthy(a) ==> r == b
  {
    if Truthy(a) then a.value else b
  }
}
