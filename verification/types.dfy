/**
 The records of the salon application and the string-literal unions they use,
 plus the in-memory store that holds one flat, insertion-ordered sequence per
 record kind. Each union becomes a datatype; its `Name` function gives the
 literal the application stores, and `Parse…` reads it back.
 */
module Types {

  datatype Option<T> = None | Some(value: T)

  // ---------------------------------------------------------------------------
  // Client
  // ---------------------------------------------------------------------------

  datatype ClientStatus = Active | Inactive | Pending

  datatype TreatmentStage = FirstContact | Measurement | Regular | PostCare

  datatype Client = Client(
    id: string,
    name: string,
    address: string,
    phone: string,
    email: string,
    status: ClientStatus,
    lastSessionDate: Option<string>,
    treatmentStage: TreatmentStage)

  function ClientStatusName(s: ClientStatus): string {
    match s
    case Active => "active"
    case Inactive => "inactive"
    case Pending => "pending"
  }

  function ParseClientStatus(s: string): Option<ClientStatus> {
    if s == "active" then Some(Active)
    else if s == "inactive" then Some(Inactive)
    else if s == "pending" then Some(Pending)
    else None
  }

  lemma ClientStatusNames(t: ClientStatus, s: string)
    ensures ParseClientStatus(s) == Some(t) <==> ClientStatusName(t) == s
  {
  }

  function TreatmentStageName(s: TreatmentStage): string {
    match s
    case FirstContact => "First Contact"
    case Measurement => "Measurement"
    case Regular => "Regular"
    case PostCare => "Post-care"
  }

  function ParseTreatmentStage(s: string): Option<TreatmentStage> {
    if s == "First Contact" then Some(FirstContact)
    else if s == "Measurement" then Some(Measurement)
    else if s == "Regular" then Some(Regular)
    else if s == "Post-care" then Some(PostCare)
    else None
  }

  lemma TreatmentStageNames(t: TreatmentStage, s: string)
    ensures ParseTreatmentStage(s) == Some(t) <==> TreatmentStageName(t) == s
  {
  }

  // ---------------------------------------------------------------------------
  // Appointment
  // ---------------------------------------------------------------------------

  /** The braiding techniques offered (`type` in the source). */
  datatype AppointmentType = BoxBraids | Nago | Twist | Entrelace | Penteado

  datatype AppointmentStatus = Scheduled | Completed | Cancelled

  /** `price` is in the salon's currency unit; `duration` is in minutes. */
  datatype Appointment = Appointment(
    id: string,
    clientId: string,
    date: string,
    time: string,
    service: AppointmentType,
    status: AppointmentStatus,
    meetLink: Option<string>,
    price: int,
    duration: int)

  function AppointmentTypeName(t: AppointmentType): string {
    match t
    case BoxBraids => "Box Braids"
    case Nago => "Nag\U{00F4}"
    case Twist => "Twist"
    case Entrelace => "Entrelace"
    case Penteado => "Penteado"
  }

  function ParseAppointmentType(s: string): Option<AppointmentType> {
    if s == "Box Braids" then Some(BoxBraids)
    else if s == "Nag\U{00F4}" then Some(Nago)
    else if s == "Twist" then Some(Twist)
    else if s == "Entrelace" then Some(Entrelace)
    else if s == "Penteado" then Some(Penteado)
    else None
  }

  lemma AppointmentTypeNames(t: AppointmentType, s: string)
    ensures ParseAppointmentType(s) == Some(t) <==> AppointmentTypeName(t) == s
  {
  }

  function AppointmentStatusName(s: AppointmentStatus): string {
    match s
    case Scheduled => "scheduled"
    case Completed => "completed"
    case Cancelled => "cancelled"
  }

  function ParseAppointmentStatus(s: string): Option<AppointmentStatus> {
    if s == "scheduled" then Some(Scheduled)
    else if s == "completed" then Some(Completed)
    else if s == "cancelled" then Some(Cancelled)
    else None
  }

  lemma AppointmentStatusNames(t: AppointmentStatus, s: string)
    ensures ParseAppointmentStatus(s) == Some(t) <==> AppointmentStatusName(t) == s
  {
  }

  // ---------------------------------------------------------------------------
  // Settings, session reports, finances, tasks
  // ---------------------------------------------------------------------------

  datatype GlobalSettings = GlobalSettings(defaultPrice: int, defaultDuration: int)

  /** The settings a fresh installation starts with: 180 per session, 240 minutes. */
  const DefaultSettings: GlobalSettings := GlobalSettings(180, 240)

  datatype SessionReport = SessionReport(
    id: string,
    appointmentId: string,
    clientId: string,
    content: string,
    date: string,
    observations: string,
    evolution: string,
    conduct: string)

  /** `type` of a financial record in the source. */
  datatype FinancialType = Income | Expense

  datatype FinancialRecord = FinancialRecord(
    id: string,
    description: string,
    amount: int,
    kind: FinancialType,
    date: string,
    category: string)

  function FinancialTypeName(t: FinancialType): string {
    match t
    case Income => "income"
    case Expense => "expense"
  }

  function ParseFinancialType(s: string): Option<FinancialType> {
    if s == "income" then Some(Income)
    else if s == "expense" then Some(Expense)
    else None
  }

  lemma FinancialTypeNames(t: FinancialType, s: string)
    ensures ParseFinancialType(s) == Some(t) <==> FinancialTypeName(t) == s
  {
  }

  datatype KanbanStatus = Todo | Doing | Done

  datatype KanbanTask = KanbanTask(
    id: string,
    title: string,
    clientId: Option<string>,
    status: KanbanStatus)

  function KanbanStatusName(s: KanbanStatus): string {
    match s
    case Todo => "todo"
    case Doing => "doing"
    case Done => "done"
  }

  function ParseKanbanStatus(s: string): Option<KanbanStatus> {
    if s == "todo" then Some(Todo)
    else if s == "doing" then Some(Doing)
    else if s == "done" then Some(Done)
    else None
  }

  lemma KanbanStatusNames(t: KanbanStatus, s: string)
    ensures ParseKanbanStatus(s) == Some(t) <==> KanbanStatusName(t) == s
  {
  }

  // ---------------------------------------------------------------------------
  // The application state
  // ---------------------------------------------------------------------------

  /** Everything the application keeps, one insertion-ordered sequence per record kind. */
  datatype Store = Store(
    settings: GlobalSettings,
    clients: seq<Client>,
    appointments: seq<Appointment>,
    sessionReports: seq<SessionReport>,
    finances: seq<FinancialRecord>,
    kanbanTasks: seq<KanbanTask>)

  /** Every appointment refers to a client present in the store. */
  predicate ClientRefsValid(st: Store) {
    forall i :: 0 <= i < |st.appointments| ==>
      exists j :: 0 <= j < |st.clients| && st.clients[j].id == st.appointments[i].clientId
  }
}
