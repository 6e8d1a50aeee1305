/** The record validations of the data model. Each record is the set of
    attribute values after column casting (`None` is a NULL column); a
    record is valid when its error set is empty, as with `valid?`.
    Uniqueness validations are checked against the rows already stored,
    which are passed in as a sequence. */
module Records {
  import opened Optional
  import opened Values
  import Text

  /** `validates :x, presence: true` on a string column: set and not blank. */
  predicate Given(a: Option<string>) {
    a.Some? && PresentText(a.value)
  }

  /** An attribute left out when the record is built, or given explicitly
      (possibly as NULL). Omitted attributes take the column default. */
  datatype Attr<T> = Omitted | Explicit(value: Option<T>)

  function WithDefault<T>(a: Attr<T>, default: Option<T>): (r: Option<T>)
    ensures a.Explicit? ==> r == a.value
    ensures a.Omitted? ==> r == default
  {
    match a
    case Omitted => default
    case Explicit(v) => v
  }

  /** A calendar date, as `Date.parse` produces it. */
  datatype Date = Date(year: int, month: int, day: int)

  // ---------------------------------------------------------------------
  // Customer

  datatype Customer = Customer(brandId: Option<nat>, name: Option<string>, email: Option<string>,
                               codiceFiscale: Option<string>)

  datatype CustomerField = CustomerBrand | CustomerName | CustomerEmail | CustomerCodiceFiscale

  predicate AsciiAlnum(c: char) {
    ('A' <= c <= 'Z') || ('a' <= c <= 'z') || ('0' <= c <= '9')
  }

  /** `/\A[A-Z0-9]{16}\z/i`: exactly sixteen ASCII letters or digits, in
      either case. */
  predicate CodiceFiscaleFormat(s: string) {
    |s| == 16 && forall i | 0 <= i < |s| :: AsciiAlnum(s[i])
  }

  function CustomerErrors(c: Customer): (r: set<CustomerField>)
    ensures CustomerBrand in r <==> c.brandId.None?
    ensures CustomerName in r <==> !Given(c.name)
    ensures CustomerEmail in r <==> !Given(c.email)
    ensures CustomerCodiceFiscale in r <==> Given(c.codiceFiscale) && !CodiceFiscaleFormat(c.codiceFiscale.value)
  {
    (if c.brandId.None? then {CustomerBrand} else {})
    + (if Given(c.name) then {} else {CustomerName})
    + (if Given(c.email) then {} else {CustomerEmail})
    + (if c.codiceFiscale.Some? && PresentText(c.codiceFiscale.value)
          && !CodiceFiscaleFormat(c.codiceFiscale.value)
       then {CustomerCodiceFiscale} else {})
  }

  /** A blank or missing codice fiscale never makes a customer invalid. */
  lemma BlankCodiceFiscaleAccepted(c: Customer)
    requires c.codiceFiscale.None? || Text.Blank(c.codiceFiscale.value)
    ensures CustomerCodiceFiscale !in CustomerErrors(c)
  {
  }

  /** The format counts characters: fifteen or seventeen are rejected. */
  lemma CodiceFiscaleLength(s: string)
    requires forall i | 0 <= i < |s| :: AsciiAlnum(s[i])
    ensures CodiceFiscaleFormat(s) <==> |s| == 16
  {
  }

  /** A hyphen anywhere is rejected, whatever the length. */
  lemma HyphenRejected(s: string, i: nat)
    requires i < |s| && s[i] == '-'
    ensures !CodiceFiscaleFormat(s)
  {
    assert !AsciiAlnum(s[i]);
  }

  /** Lower-case letters are accepted like upper-case ones. */
  lemma LowerCaseAccepted()
    ensures CodiceFiscaleFormat("rssmra85t10a562s")
    ensures CodiceFiscaleFormat("RSSMRA85T10A562S")
    ensures !CodiceFiscaleFormat("RSSMRA85T10A562")
    ensures !CodiceFiscaleFormat("RSSMRA85T10A562SX")
  {
  }

  // ---------------------------------------------------------------------
  // Payment

  /** Amounts are integer cents. */
  datatype Payment = Payment(brandId: Option<nat>, bookingId: Option<nat>, amount: Option<int>,
                             currency: Option<string>, status: Option<string>)

  datatype PaymentField = PaymentBrand | PaymentBooking | PaymentAmount | PaymentCurrency | PaymentStatus

  const PaymentStatuses: set<string> :=
    {"pending", "requires_action", "processing", "paid", "failed", "canceled"}

  /** The `currency` column default. */
  const DefaultCurrency: string := "eur"

  /** A payment as built from its attributes; an omitted currency takes the
      column default. */
  function NewPayment(brandId: Option<nat>, bookingId: Option<nat>, amount: Option<int>,
                      currency: Attr<string>, status: Option<string>): (p: Payment)
    ensures currency.Omitted? ==> p.currency == Some(DefaultCurrency)
  {
    Payment(brandId, bookingId, amount, WithDefault(currency, Some(DefaultCurrency)), status)
  }

  function PaymentErrors(p: Payment): (r: set<PaymentField>)
    ensures PaymentBrand in r <==> p.brandId.None?
    ensures PaymentBooking in r <==> p.bookingId.None?
    ensures PaymentAmount !in r <==> p.amount.Some? && p.amount.value > 0
    ensures PaymentCurrency in r <==> !Given(p.currency)
    ensures PaymentStatus !in r <==> p.status.Some? && p.status.value in PaymentStatuses
  {
    (if p.brandId.None? then {PaymentBrand} else {})
    + (if p.bookingId.None? then {PaymentBooking} else {})
    + (if p.amount.None? || p.amount.value <= 0 then {PaymentAmount} else {})
    + (if Given(p.currency) then {} else {PaymentCurrency})
    + (if p.status.Some? && p.status.value in PaymentStatuses then {} else {PaymentStatus})
  }

  /** Zero and negative amounts are rejected, a positive one accepted. */
  lemma PaymentAmounts(p: Payment)
    ensures PaymentAmount in PaymentErrors(p.(amount := Some(0)))
    ensures PaymentAmount in PaymentErrors(p.(amount := Some(-1000)))
    ensures PaymentAmount !in PaymentErrors(p.(amount := Some(1)))
  {
  }

  /** A payment that does not name its currency has a valid currency. */
  lemma DefaultCurrencyValid(brandId: Option<nat>, bookingId: Option<nat>, amount: Option<int>, status: Option<string>)
    ensures PaymentCurrency !in PaymentErrors(NewPayment(brandId, bookingId, amount, Omitted, status))
  {
    assert !Text.IsSpace(DefaultCurrency[0]);
  }

  // ---------------------------------------------------------------------
  // Invoice

  datatype Invoice = Invoice(brandId: Option<nat>, bookingId: Option<nat>, paymentId: Option<nat>,
                             number: Option<string>, status: Option<string>)

  datatype InvoiceField = InvoiceBrand | InvoiceBooking | InvoicePayment | InvoiceNumber | InvoiceNumberTaken | InvoiceStatus

  const InvoiceStatuses: set<string> := {"draft", "issued", "sent"}

  /** Some stored invoice of the same brand already has this number. */
  predicate NumberTaken(inv: Invoice, stored: seq<Invoice>) {
    exists j | 0 <= j < |stored| :: stored[j].brandId == inv.brandId && stored[j].number == inv.number
  }

  function InvoiceErrors(inv: Invoice, stored: seq<Invoice>): (r: set<InvoiceField>)
    ensures InvoiceBrand in r <==> inv.brandId.None?
    ensures InvoiceBooking in r <==> inv.bookingId.None?
    ensures InvoicePayment in r <==> inv.paymentId.None?
    ensures InvoiceNumber in r <==> !Given(inv.number)
    ensures InvoiceNumberTaken in r <==> NumberTaken(inv, stored)
    ensures InvoiceStatus !in r <==> inv.status.Some? && inv.status.value in InvoiceStatuses
  {
    (if inv.brandId.None? then {InvoiceBrand} else {})
    + (if inv.bookingId.None? then {InvoiceBooking} else {})
    + (if inv.paymentId.None? then {InvoicePayment} else {})
    + (if Given(inv.number) then {} else {InvoiceNumber})
    + (if NumberTaken(inv, stored) then {InvoiceNumberTaken} else {})
    + (if inv.status.Some? && inv.status.value in InvoiceStatuses then {} else {InvoiceStatus})
  }

  /** No two stored invoices of one brand share a number. */
  predicate InvoiceNumbersUnique(stored: seq<Invoice>) {
    forall i, j | 0 <= i < j < |stored| ::
      stored[i].brandId == stored[j].brandId ==> stored[i].number != stored[j].number
  }

  /** Saving only valid invoices keeps numbers unique within each brand. */
  lemma InvoiceInsertKeepsUnique(stored: seq<Invoice>, inv: Invoice)
    requires InvoiceNumbersUnique(stored)
    requires InvoiceErrors(inv, stored) == {}
    ensures InvoiceNumbersUnique(stored + [inv])
  {
    var s := stored + [inv];
    forall i, j | 0 <= i < j < |s| && s[i].brandId == s[j].brandId
      ensures s[i].number != s[j].number
    {
      if j == |stored| {
        assert InvoiceNumberTaken !in InvoiceErrors(inv, stored);
        assert s[i] == stored[i];
      }
    }
  }

  /** Invoices of other brands never make a number taken. */
  lemma OtherBrandsDoNotClash(inv: Invoice, stored: seq<Invoice>)
    requires forall j | 0 <= j < |stored| :: stored[j].brandId != inv.brandId
    ensures InvoiceNumberTaken !in InvoiceErrors(inv, stored)
  {
  }

  // ---------------------------------------------------------------------
  // Message

  datatype Message = Message(conversationId: Option<nat>, role: Option<string>, content: Option<string>)

  datatype MessageField = MessageConversation | MessageRolePresence | MessageRoleInclusion | MessageContent

  const Roles: set<string> := {"user", "assistant", "system"}

  function MessageErrors(m: Message): (r: set<MessageField>)
    ensures MessageConversation in r <==> m.conversationId.None?
    ensures MessageRolePresence in r <==> !Given(m.role)
    ensures MessageRoleInclusion !in r <==> m.role.Some? && m.role.value in Roles
    ensures MessageContent in r <==> !Given(m.content)
  {
    (if m.conversationId.None? then {MessageConversation} else {})
    + (if Given(m.role) then {} else {MessageRolePresence})
    + (if m.role.Some? && m.role.value in Roles then {} else {MessageRoleInclusion})
    + (if Given(m.content) then {} else {MessageContent})
  }

  /** The role check is case-sensitive. */
  lemma RoleCaseSensitive(m: Message)
    ensures MessageRoleInclusion in MessageErrors(m.(role := Some("User")))
    ensures MessageRoleInclusion in MessageErrors(m.(role := Some("ASSISTANT")))
    ensures MessageRoleInclusion !in MessageErrors(m.(role := Some("assistant")))
  {
  }

  // ---------------------------------------------------------------------
  // Workflow

  datatype Workflow = Workflow(brandId: Option<nat>, name: Option<string>, enabled: Option<bool>)

  datatype WorkflowField = WorkflowBrand | WorkflowName | WorkflowEnabled

  /** A workflow as built from its attributes; an omitted `enabled` takes
      the column default `false`. */
  function NewWorkflow(brandId: Option<nat>, name: Option<string>, enabled: Attr<bool>): (w: Workflow)
    ensures enabled.Omitted? ==> w.enabled == Some(false)
  {
    Workflow(brandId, name, WithDefault(enabled, Some(false)))
  }

  function WorkflowErrors(w: Workflow): (r: set<WorkflowField>)
    ensures WorkflowBrand in r <==> w.brandId.None?
    ensures WorkflowName in r <==> !Given(w.name)
    ensures WorkflowEnabled in r <==> w.enabled.None?
  {
    (if w.brandId.None? then {WorkflowBrand} else {})
    + (if Given(w.name) then {} else {WorkflowName})
    + (if w.enabled.None? then {WorkflowEnabled} else {})
  }

  /** An omitted `enabled` is valid and false; an explicit NULL is not. */
  lemma WorkflowEnabledDefault(brandId: Option<nat>, name: Option<string>)
    ensures NewWorkflow(brandId, name, Omitted).enabled == Some(false)
    ensures WorkflowEnabled !in WorkflowErrors(NewWorkflow(brandId, name, Omitted))
    ensures WorkflowEnabled in WorkflowErrors(NewWorkflow(brandId, name, Explicit(None)))
  {
  }

  // ---------------------------------------------------------------------
  // User

  datatype User = User(brandId: Option<nat>, name: Option<string>, email: Option<string>, role: Option<string>)

  datatype UserField = UserBrand | UserName | UserEmail | UserEmailTaken | UserRole

  predicate EmailTaken(u: User, stored: seq<User>) {
    exists j | 0 <= j < |stored| :: stored[j].brandId == u.brandId && stored[j].email == u.email
  }

  function UserErrors(u: User, stored: seq<User>): (r: set<UserField>)
    ensures UserBrand in r <==> u.brandId.None?
    ensures UserName in r <==> !Given(u.name)
    ensures UserEmail in r <==> !Given(u.email)
    ensures UserEmailTaken in r <==> EmailTaken(u, stored)
    ensures UserRole in r <==> !Given(u.role)
  {
    (if u.brandId.None? then {UserBrand} else {})
    + (if Given(u.name) then {} else {UserName})
    + (if Given(u.email) then {} else {UserEmail})
    + (if EmailTaken(u, stored) then {UserEmailTaken} else {})
    + (if Given(u.role) then {} else {UserRole})
  }

  predicate UserEmailsUnique(stored: seq<User>) {
    forall i, j | 0 <= i < j < |stored| ::
      stored[i].brandId == stored[j].brandId ==> stored[i].email != stored[j].email
  }

  /** Saving only valid users keeps e-mails unique within each brand. */
  lemma UserInsertKeepsUnique(stored: seq<User>, u: User)
    requires UserEmailsUnique(stored)
    requires UserErrors(u, stored) == {}
    ensures UserEmailsUnique(stored + [u])
  {
    var s := stored + [u];
    forall i, j | 0 <= i < j < |s| && s[i].brandId == s[j].brandId
      ensures s[i].email != s[j].email
    {
      if j == |stored| {
        assert UserEmailTaken !in UserErrors(u, stored);
        assert s[i] == stored[i];
      }
    }
  }

  /** The same e-mail is free under another brand. */
  lemma SameEmailOtherBrand(u: User, v: User)
    requires u.brandId != v.brandId
    ensures UserEmailTaken !in UserErrors(u.(email := v.email), [v])
  {
  }

  // ---------------------------------------------------------------------
  // Booking and lead, the records the save step creates

  datatype Booking = Booking(brandId: Option<nat>, customerId: Option<nat>, serviceType: Option<string>,
                             date: Option<Date>, status: Option<string>, notes: Option<string>,
                             metadata: Value)

  datatype BookingField = BookingBrand | BookingCustomer | BookingServiceType | BookingDate | BookingStatus

  function BookingErrors(b: Booking): (r: set<BookingField>)
    ensures BookingBrand in r <==> b.brandId.None?
    ensures BookingCustomer in r <==> b.customerId.None?
    ensures BookingServiceType in r <==> !Given(b.serviceType)
    ensures BookingDate in r <==> b.date.None?
    ensures BookingStatus in r <==> !Given(b.status)
  {
    (if b.brandId.None? then {BookingBrand} else {})
    + (if b.customerId.None? then {BookingCustomer} else {})
    + (if Given(b.serviceType) then {} else {BookingServiceType})
    + (if b.date.None? then {BookingDate} else {})
    + (if Given(b.status) then {} else {BookingStatus})
  }

  datatype Lead = Lead(brandId: Option<nat>, customerId: Option<nat>, formType: Option<string>, status: Option<string>)

  datatype LeadField = LeadBrand | LeadCustomer | LeadFormType | LeadStatus

  function LeadErrors(l: Lead): (r: set<LeadField>)
    ensures LeadBrand in r <==> l.brandId.None?
    ensures LeadCustomer in r <==> l.customerId.None?
    ensures LeadFormType in r <==> !Given(l.formType)
    ensures LeadStatus in r <==> !Given(l.status)
  {
    (if l.brandId.None? then {LeadBrand} else {})
    + (if l.customerId.None? then {LeadCustomer} else {})
    + (if Given(l.formType) then {} else {LeadFormType})
    + (if Given(l.status) then {} else {LeadStatus})
  }

  // ---------------------------------------------------------------------
  // Brand template

  datatype BrandTemplate = BrandTemplate(brandId: Option<nat>, templateId: Option<nat>)

  datatype BrandTemplateField = BrandTemplateBrand | BrandTemplateTemplate | BrandTemplateTaken

  predicate PairTaken(t: BrandTemplate, stored: seq<BrandTemplate>) {
    exists j | 0 <= j < |stored| :: stored[j].brandId == t.brandId && stored[j].templateId == t.templateId
  }

  function BrandTemplateErrors(t: BrandTemplate, stored: seq<BrandTemplate>): (r: set<BrandTemplateField>)
    ensures BrandTemplateBrand in r <==> t.brandId.None?
    ensures BrandTemplateTemplate in r <==> t.templateId.None?
    ensures BrandTemplateTaken in r <==> PairTaken(t, stored)
  {
    (if t.brandId.None? then {BrandTemplateBrand} else {})
    + (if t.templateId.None? then {BrandTemplateTemplate} else {})
    + (if PairTaken(t, stored) then {BrandTemplateTaken} else {})
  }

  /** At most one stored row per (brand, template) pair. */
  predicate PairsUnique(stored: seq<BrandTemplate>) {
    forall i, j | 0 <= i < j < |stored| :: stored[i] != stored[j]
  }

  lemma BrandTemplateInsertKeepsUnique(stored: seq<BrandTemplate>, t: BrandTemplate)
    requires PairsUnique(stored)
    requires BrandTemplateErrors(t, stored) == {}
    ensures PairsUnique(stored + [t])
  {
    var s := stored + [t];
    forall i, j | 0 <= i < j < |s|
      ensures s[i] != s[j]
    {
      if j == |stored| {
        assert BrandTemplateTaken !in BrandTemplateErrors(t, stored);
        assert s[i] == stored[i];
      }
    }
  }

  /** One template may be linked to several brands. */
  lemma TemplateSharedAcrossBrands(template: nat, b1: nat, b2: nat)
    requires b1 != b2
    ensures BrandTemplateErrors(BrandTemplate(Some(b2), Some(template)), [BrandTemplate(Some(b1), Some(template))]) == {}
  {
  }
}
