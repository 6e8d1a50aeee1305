/** The save step: creates a booking or a lead from the step's field map,
    after substituting placeholders in its string values, and records the
    new row's id in the context.

    The database is reduced to what the step sees: the id the new row gets
    (`newId`), the current tenant, and `Date.parse` (`parseDate`, `None`
    when it raises `ArgumentError`). */
module SaveStep {
  import opened Optional
  import opened Values
  import opened WorkflowContext
  import opened BaseStep
  import opened Placeholders
  import opened Records
  import Text

  datatype ModelKind = BookingModel | LeadModel

  /** `Date.parse`: a date, or `None` for text it rejects. */
  type DateParser = string -> Option<Date>

  /** The row the step created. */
  datatype Created = CreatedBooking(id: nat, booking: Booking) | CreatedLead(id: nat, lead: Lead)

  /** The step's outcome together with the row it created, if any. */
  datatype SaveOutcome = SaveOutcome(outcome: StepOutcome, created: Option<Created>)

  // ---------------------------------------------------------------------
  // Model name

  /** `model_name.to_s.downcase` compared with `"booking"` and `"lead"`. */
  function ResolveModel(name: Value, inspect: Inspector): Option<ModelKind> {
    var n := Text.Lower(ToS(name, inspect));
    if n == "booking" then Some(BookingModel)
    else if n == "lead" then Some(LeadModel)
    else None
  }

  /** The upper-case form of a lower-case ASCII letter. */
  function UpperChar(c: char): char {
    if 'a' <= c <= 'z' then (c as int - 32) as char else c
  }

  /** `s` spells the lower-case ASCII word `w` with each letter in either
      case (and the Kelvin sign, which lower-cases to `k`, for `k`). */
  predicate SpellsIgnoringCase(s: string, w: string) {
    |s| == |w| &&
    forall i | 0 <= i < |s| :: s[i] == w[i] || s[i] == UpperChar(w[i]) || (w[i] == 'k' && s[i] == '\U{212A}')
  }

  predicate LowerAsciiWord(w: string) {
    forall i | 0 <= i < |w| :: 'a' <= w[i] <= 'z'
  }

  lemma LowerMatches(s: string, w: string)
    requires LowerAsciiWord(w)
    ensures Text.Lower(s) == w <==> SpellsIgnoringCase(s, w)
  {
    if SpellsIgnoringCase(s, w) {
      assert forall i | 0 <= i < |s| :: Text.Lower(s)[i] == w[i];
    }
    if Text.Lower(s) == w {
      forall i | 0 <= i < |s|
        ensures s[i] == w[i] || s[i] == UpperChar(w[i]) || (w[i] == 'k' && s[i] == '\U{212A}')
      {
        assert Text.LowerChar(s[i]) == w[i];
      }
    }
  }

  /** The model name matches case-insensitively: a string selects the
      booking model exactly when it spells `booking` in any mix of cases,
      and likewise for `lead`. */
  lemma ModelNameCaseInsensitive(s: string, inspect: Inspector)
    ensures ResolveModel(Str(s), inspect) == Some(BookingModel) <==> SpellsIgnoringCase(s, "booking")
    ensures ResolveModel(Str(s), inspect) == Some(LeadModel) <==> SpellsIgnoringCase(s, "lead")
    ensures ResolveModel(Str(s), inspect).None? <==>
              !SpellsIgnoringCase(s, "booking") && !SpellsIgnoringCase(s, "lead")
  {
    LowerMatches(s, "booking");
    LowerMatches(s, "lead");
  }

  /** A missing model name is an unknown model. */
  lemma MissingModelUnknown(inspect: Inspector)
    ensures ResolveModel(Null, inspect).None?
  {
  }

  // ---------------------------------------------------------------------
  // Field values

  /** `substitute_value`: strings are rendered against the context state;
      every other value passes through unchanged. */
  function Substitute(v: Value, state: map<string, Value>, inspect: Inspector): (r: Value)
    ensures !v.Str? ==> r == v
    ensures v.Str? ==> r.Str? && r.s == Render(v.s, state, inspect)
  {
    match v
    case Str(s) => Str(Render(s, state, inspect))
    case _ => v
  }

  /** `resolve_fields`: the same keys, each value substituted. */
  function ResolveFields(fields: map<string, Value>, state: map<string, Value>, inspect: Inspector): (r: map<string, Value>)
    ensures r.Keys == fields.Keys
    ensures forall k | k in fields :: r[k] == Substitute(fields[k], state, inspect)
  {
    map k | k in fields :: Substitute(fields[k], state, inspect)
  }

  /** The key a `|key, value|` block receives for one element of an array. */
  function PairKey(e: Value): Value {
    match e
    case List(items) => if |items| > 0 then items[0] else Null
    case _ => e
  }

  /** The value a `|key, value|` block receives for one element of an array. */
  function PairValue(e: Value): Value {
    match e
    case List(items) => if |items| > 1 then items[1] else Null
    case _ => Null
  }

  /** The string-keyed entries that iterating an array with `|key, value|`
      writes; a later element with the same key wins. Entries under other
      keys are never read back by the step. */
  function Pairs(xs: seq<Value>): (r: map<string, Value>)
    ensures forall k | k in r :: exists i | 0 <= i < |xs| :: PairKey(xs[i]) == Str(k) && PairValue(xs[i]) == r[k]
    decreases |xs|
  {
    if |xs| == 0 then map[]
    else
      var m := Pairs(xs[..|xs| - 1]);
      var e := xs[|xs| - 1];
      var r := if PairKey(e).Str? then m[PairKey(e).s := PairValue(e)] else m;
      assert forall i | 0 <= i < |xs| - 1 :: xs[..|xs| - 1][i] == xs[i];
      r
  }

  /** `step["fields"] || {}` as something `each` can iterate: a hash, an
      array, or (for other values) `None`, where `each` raises. */
  function FieldsOf(v: Value): (r: Option<map<string, Value>>)
    ensures !Truthy(v) ==> r == Some(map[])
    ensures v.Hash? ==> r == Some(v.fields)
    ensures r.None? <==> v.Int? || v.Str? || v == Bool(true)
  {
    match v
    case Null => Some(map[])
    case Bool(b) => if b then None else Some(map[])
    case Hash(m) => Some(m)
    case List(xs) => Some(Pairs(xs))
    case _ => None
  }

  // ---------------------------------------------------------------------
  // Attribute building

  /** Ruby's `v || default`. */
  function Or(v: Value, default: Value): (r: Value)
    ensures Truthy(v) ==> r == v
    ensures !Truthy(v) ==> r == default
  {
    if Truthy(v) then v else default
  }

  /** A string column's cast: `true` and `false` become `"t"` and `"f"`,
      `nil` stays NULL, anything else is stored as its `to_s`. */
  function CastString(v: Value, inspect: Inspector): (r: Option<string>)
    ensures r.None? <==> v.Null?
    ensures v.Str? ==> r == Some(v.s)
  {
    match v
    case Null => None
    case Bool(b) => Some(if b then "t" else "f")
    case _ => Some(ToS(v, inspect))
  }

  /** `parse_date`: `None` when `empty?` raises (an integer or a boolean);
      otherwise the date, or no date for `nil`, an empty value or text
      `Date.parse` rejects. */
  function ParseDate(v: Value, parseDate: DateParser): (r: Option<Option<Date>>)
    ensures r.None? <==> v.Int? || v.Bool?
    ensures v.Null? || v == Str("") ==> r == Some(None)
    ensures v.Str? && v.s != "" ==> r == Some(parseDate(v.s))
  {
    match v
    case Null => Some(None)
    case Str(s) => if |s| == 0 then Some(None) else Some(parseDate(s))
    case Int(_) => None
    case Bool(_) => None
    case List(_) => Some(None)
    case Hash(_) => Some(None)
  }

  /** The booking `create!` receives. */
  function BookingAttrs(brand: nat, customer: CustomerRef, f: map<string, Value>, date: Option<Date>,
                        inspect: Inspector): (b: Booking)
    ensures b.brandId == Some(brand) && b.customerId == Some(customer.id) && b.date == date
    ensures !Truthy(At(f, "service_type")) ==> b.serviceType == Some("consultation")
    ensures !Truthy(At(f, "status")) ==> b.status == Some("pending")
    ensures !Truthy(At(f, "metadata")) ==> b.metadata == Hash(map[])
    ensures At(f, "service_type").Str? ==> b.serviceType == Some(At(f, "service_type").s)
    ensures At(f, "status").Str? ==> b.status == Some(At(f, "status").s)
    ensures b.notes == CastString(At(f, "notes"), inspect)
  {
    Booking(Some(brand), Some(customer.id),
            CastString(Or(At(f, "service_type"), Str("consultation")), inspect),
            date,
            CastString(Or(At(f, "status"), Str("pending")), inspect),
            CastString(At(f, "notes"), inspect),
            Or(At(f, "metadata"), Hash(map[])))
  }

  /** The lead `create!` receives. */
  function LeadAttrs(brand: nat, customer: CustomerRef, f: map<string, Value>, inspect: Inspector): (l: Lead)
    ensures l.brandId == Some(brand) && l.customerId == Some(customer.id)
    ensures !Truthy(At(f, "form_type")) ==> l.formType == Some("contact")
    ensures !Truthy(At(f, "status")) ==> l.status == Some("new")
    ensures At(f, "form_type").Str? ==> l.formType == Some(At(f, "form_type").s)
    ensures At(f, "status").Str? ==> l.status == Some(At(f, "status").s)
  {
    Lead(Some(brand), Some(customer.id),
         CastString(Or(At(f, "form_type"), Str("contact")), inspect),
         CastString(Or(At(f, "status"), Str("new")), inspect))
  }

  /** `context.customer&.brand || ActsAsTenant.current_tenant`. */
  function BrandFor(ctx: Context, tenant: Option<nat>): (r: Option<nat>)
    ensures ctx.customer.Some? ==> r == Some(ctx.customer.value.brandId)
    ensures ctx.customer.None? ==> r == tenant
  {
    match ctx.customer
    case Some(c) => Some(c.brandId)
    case None => tenant
  }

  const RecordInvalid: string := "ActiveRecord::RecordInvalid"

  /** `create_record`: `None` for the `nil` it returns without a brand or a
      customer; otherwise the outcome of `create!`, which raises for an
      invalid record. */
  function CreateRecord(kind: ModelKind, ctx: Context, f: map<string, Value>, inspect: Inspector,
                        tenant: Option<nat>, parseDate: DateParser, newId: nat): (r: Option<Result>)
    ensures r.Some? <==> ctx.customer.Some?
    ensures r.Some? && r.value.Made? ==> r.value.created.id == newId
    ensures r.Some? && r.value.Made? && r.value.created.CreatedBooking? ==>
              kind == BookingModel && BookingErrors(r.value.created.booking) == {} &&
              r.value.created.booking.customerId == Some(ctx.customer.value.id) &&
              r.value.created.booking.brandId == Some(ctx.customer.value.brandId)
    ensures r.Some? && r.value.Made? && r.value.created.CreatedLead? ==>
              kind == LeadModel && LeadErrors(r.value.created.lead) == {} &&
              r.value.created.lead.customerId == Some(ctx.customer.value.id) &&
              r.value.created.lead.brandId == Some(ctx.customer.value.brandId)
    // a lead row is exactly the attributes built from the fields, and
    // `create!` raises exactly when they fail validation
    ensures r.Some? && kind == LeadModel ==>
              var l := LeadAttrs(ctx.customer.value.brandId, ctx.customer.value, f, inspect);
              (r.value.Made? <==> LeadErrors(l) == {}) &&
              (r.value.Made? ==> r.value.created == CreatedLead(newId, l)) &&
              (r.value.Failed? ==> r.value.reason == RecordInvalid)
    // a booking whose date cannot be tested for emptiness raises; otherwise
    // the row is the attributes built from the fields and the parsed date
    ensures r.Some? && kind == BookingModel && ParseDate(At(f, "date"), parseDate).None? ==> r.value.Failed?
    ensures r.Some? && kind == BookingModel && ParseDate(At(f, "date"), parseDate).Some? ==>
              var b := BookingAttrs(ctx.customer.value.brandId, ctx.customer.value, f,
                                    ParseDate(At(f, "date"), parseDate).value, inspect);
              (r.value.Made? <==> BookingErrors(b) == {}) &&
              (r.value.Made? ==> r.value.created == CreatedBooking(newId, b)) &&
              (r.value.Failed? ==> r.value.reason == RecordInvalid)
  {
    match BrandFor(ctx, tenant)
    case None => None
    case Some(brand) =>
      match ctx.customer
      case None => None
      case Some(customer) =>
        match kind
        case BookingModel =>
          (match ParseDate(At(f, "date"), parseDate)
           case None => Some(Failed("NoMethodError: undefined method 'empty?'"))
           case Some(date) =>
             var b := BookingAttrs(brand, customer, f, date, inspect);
             Some(if BookingErrors(b) == {} then Made(CreatedBooking(newId, b)) else Failed(RecordInvalid)))
        case LeadModel =>
          var l := LeadAttrs(brand, customer, f, inspect);
          Some(if LeadErrors(l) == {} then Made(CreatedLead(newId, l)) else Failed(RecordInvalid))
  }

  /** What `create!` does: the row made, or the exception raised. */
  datatype Result = Made(created: Created) | Failed(reason: string)

  /** The message `resolve_model` logs for a name it does not know. */
  function UnknownModel(name: Value, inspect: Inspector): string {
    "Unknown model: " + ToS(name, inspect)
  }

  /** `call`. */
  function Call(ctx: Context, step: StepDef, inspect: Inspector, tenant: Option<nat>,
                parseDate: DateParser, newId: nat): (r: SaveOutcome)
    // the step never replies or halts
    ensures r.outcome.Done? ==> r.outcome.result == Continue
    // an unknown model is logged and nothing else happens
    ensures ResolveModel(Field(step, "model"), inspect).None? ==>
              r == SaveOutcome(Done(ctx.(errors := ctx.errors + [UnknownModel(Field(step, "model"), inspect)]), Continue), None)
    // a known model never logs an error
    ensures ResolveModel(Field(step, "model"), inspect).Some? && r.outcome.Done? ==> r.outcome.ctx.errors == ctx.errors
    // without a customer nothing is created and the context is untouched
    ensures ResolveModel(Field(step, "model"), inspect).Some? && ctx.customer.None? && r.outcome.Done? ==>
              r.outcome.ctx == ctx && r.created.None?
    // a row is created exactly when the step completes with a known model and a customer
    ensures r.created.Some? <==>
              ResolveModel(Field(step, "model"), inspect).Some? && ctx.customer.Some? && r.outcome.Done?
    // the created row is valid, of the requested model, and belongs to the customer and their brand
    ensures r.created.Some? ==> r.created.value.id == newId
    ensures r.created.Some? && r.created.value.CreatedBooking? ==>
              ResolveModel(Field(step, "model"), inspect) == Some(BookingModel) &&
              BookingErrors(r.created.value.booking) == {} &&
              r.created.value.booking.customerId == Some(ctx.customer.value.id) &&
              r.created.value.booking.brandId == Some(ctx.customer.value.brandId)
    ensures r.created.Some? && r.created.value.CreatedLead? ==>
              ResolveModel(Field(step, "model"), inspect) == Some(LeadModel) &&
              LeadErrors(r.created.value.lead) == {} &&
              r.created.value.lead.customerId == Some(ctx.customer.value.id) &&
              r.created.value.lead.brandId == Some(ctx.customer.value.brandId)
    // the new id is recorded, and only then does the state change
    ensures r.created.Some? ==>
              Get(r.outcome.ctx, Symbol("last_saved_record_id")) == Int(newId) &&
              r.outcome.ctx == Set(ctx, Symbol("last_saved_record_id"), Int(newId))
    ensures r.created.None? && r.outcome.Done? ==> r.outcome.ctx.state == ctx.state
    // fields that `each` cannot iterate raise before anything is created
    ensures ResolveModel(Field(step, "model"), inspect).Some? &&
            FieldsOf(Or(Field(step, "fields"), Hash(map[]))).None? ==>
              r.outcome.Raised? && r.created.None?
    // otherwise the outcome is the record attempt on the rendered fields:
    // nothing without a customer, its exception, or the row it made
    ensures ResolveModel(Field(step, "model"), inspect).Some? &&
            FieldsOf(Or(Field(step, "fields"), Hash(map[]))).Some? ==>
              var c := CreateRecord(ResolveModel(Field(step, "model"), inspect).value, ctx,
                                    ResolveFields(FieldsOf(Or(Field(step, "fields"), Hash(map[]))).value, ctx.state, inspect),
                                    inspect, tenant, parseDate, newId);
              (c.None? ==> r == SaveOutcome(Done(ctx, Continue), None)) &&
              (c.Some? && c.value.Failed? ==> r == SaveOutcome(Raised(c.value.reason), None)) &&
              (c.Some? && c.value.Made? ==> r.created == Some(c.value.created))
  {
    var name := Field(step, "model");
    match ResolveModel(name, inspect)
    case None =>
      SaveOutcome(Done(ctx.(errors := ctx.errors + [UnknownModel(name, inspect)]), Continue), None)
    case Some(kind) =>
      match FieldsOf(Or(Field(step, "fields"), Hash(map[])))
      case None => SaveOutcome(Raised("NoMethodError: undefined method 'each'"), None)
      case Some(raw) =>
        var f := ResolveFields(raw, ctx.state, inspect);
        match CreateRecord(kind, ctx, f, inspect, tenant, parseDate, newId)
        case None => SaveOutcome(Done(ctx, Continue), None)
        case Some(Failed(reason)) => SaveOutcome(Raised(reason), None)
        case Some(Made(c)) =>
          SaveOutcome(Done(Set(ctx, Symbol("last_saved_record_id"), Int(c.id)), Continue), Some(c))
  }

  // ---------------------------------------------------------------------
  // Properties

  /** The current tenant is consulted only when there is no customer, and
      then no record is made: it never affects the outcome. */
  lemma TenantIrrelevant(ctx: Context, step: StepDef, inspect: Inspector, t1: Option<nat>, t2: Option<nat>,
                         parseDate: DateParser, newId: nat)
    ensures Call(ctx, step, inspect, t1, parseDate, newId) == Call(ctx, step, inspect, t2, parseDate, newId)
  {
    match ResolveModel(Field(step, "model"), inspect)
    case None =>
    case Some(kind) =>
      match FieldsOf(Or(Field(step, "fields"), Hash(map[])))
      case None =>
      case Some(raw) =>
        var f := ResolveFields(raw, ctx.state, inspect);
        CreateRecordTenant(kind, ctx, f, inspect, t1, t2, parseDate, newId);
  }

  lemma CreateRecordTenant(kind: ModelKind, ctx: Context, f: map<string, Value>, inspect: Inspector,
                           t1: Option<nat>, t2: Option<nat>, parseDate: DateParser, newId: nat)
    ensures CreateRecord(kind, ctx, f, inspect, t1, parseDate, newId) ==
            CreateRecord(kind, ctx, f, inspect, t2, parseDate, newId)
  {
    if ctx.customer.Some? {
      assert BrandFor(ctx, t1) == BrandFor(ctx, t2);
    }
  }

  /** A lead step whose fields give neither a form type nor a status
      creates a lead with `"contact"` and `"new"`, and that lead is valid. */
  lemma LeadDefaultsValid(ctx: Context, step: StepDef, inspect: Inspector, tenant: Option<nat>,
                          parseDate: DateParser, newId: nat, fields: map<string, Value>)
    requires ResolveModel(Field(step, "model"), inspect) == Some(LeadModel)
    requires Field(step, "fields") == Hash(fields)
    requires "form_type" !in fields && "status" !in fields
    requires ctx.customer.Some?
    ensures Call(ctx, step, inspect, tenant, parseDate, newId).created ==
              Some(CreatedLead(newId, Lead(Some(ctx.customer.value.brandId), Some(ctx.customer.value.id),
                                           Some("contact"), Some("new"))))
  {
    var f := ResolveFields(fields, ctx.state, inspect);
    assert At(f, "form_type") == Null && At(f, "status") == Null;
    DefaultLead(ctx, f, inspect, tenant, parseDate, newId);
  }

  /** With neither a form type nor a status, the lead made carries both
      defaults and passes validation. */
  lemma DefaultLead(ctx: Context, f: map<string, Value>, inspect: Inspector, tenant: Option<nat>,
                    parseDate: DateParser, newId: nat)
    requires At(f, "form_type") == Null && At(f, "status") == Null
    requires ctx.customer.Some?
    ensures CreateRecord(LeadModel, ctx, f, inspect, tenant, parseDate, newId) ==
              Some(Made(CreatedLead(newId, Lead(Some(ctx.customer.value.brandId), Some(ctx.customer.value.id),
                                                Some("contact"), Some("new")))))
  {
    var l := LeadAttrs(ctx.customer.value.brandId, ctx.customer.value, f, inspect);
    assert !Text.IsSpace("contact"[0]) && !Text.IsSpace("new"[0]);
    assert LeadErrors(l) == {};
  }

  /** A booking step whose date is missing (or parses to nothing) fails
      validation and raises, so no row is created and no id recorded. */
  lemma BookingWithoutDateRaises(ctx: Context, step: StepDef, inspect: Inspector, tenant: Option<nat>,
                                 parseDate: DateParser, newId: nat, fields: map<string, Value>)
    requires ResolveModel(Field(step, "model"), inspect) == Some(BookingModel)
    requires Field(step, "fields") == Hash(fields)
    requires "date" !in fields
    requires ctx.customer.Some?
    ensures Call(ctx, step, inspect, tenant, parseDate, newId) == SaveOutcome(Raised(RecordInvalid), None)
  {
    var f := ResolveFields(fields, ctx.state, inspect);
    assert At(f, "date") == Null;
    UndatedBooking(ctx, f, inspect, tenant, parseDate, newId);
  }

  lemma UndatedBooking(ctx: Context, f: map<string, Value>, inspect: Inspector, tenant: Option<nat>,
                       parseDate: DateParser, newId: nat)
    requires At(f, "date") == Null && ctx.customer.Some?
    ensures CreateRecord(BookingModel, ctx, f, inspect, tenant, parseDate, newId) == Some(Failed(RecordInvalid))
  {
    var b := BookingAttrs(ctx.customer.value.brandId, ctx.customer.value, f, None, inspect);
    assert BookingDate in BookingErrors(b);
  }

  /** A booking step whose fields give only a date that parses creates a
      booking with the defaults `"consultation"`, `"pending"` and `{}`. */
  lemma BookingDefaults(ctx: Context, step: StepDef, inspect: Inspector, tenant: Option<nat>,
                        parseDate: DateParser, newId: nat, text: string, d: Date)
    requires ResolveModel(Field(step, "model"), inspect) == Some(BookingModel)
    requires Field(step, "fields") == Hash(map["date" := Str(text)])
    requires text != "" && '{' !in text && parseDate(text) == Some(d)
    requires ctx.customer.Some?
    ensures Call(ctx, step, inspect, tenant, parseDate, newId).created ==
              Some(CreatedBooking(newId, Booking(Some(ctx.customer.value.brandId), Some(ctx.customer.value.id),
                                                 Some("consultation"), Some(d), Some("pending"), None, Hash(map[]))))
  {
    var f := DateOnlyFields(ctx.state, inspect, text);
    DefaultBooking(ctx, f, inspect, tenant, parseDate, newId, text, d);
  }

  /** Fields holding only a placeholder-free date render to themselves. */
  lemma DateOnlyFields(state: map<string, Value>, inspect: Inspector, text: string) returns (f: map<string, Value>)
    requires '{' !in text
    ensures f == ResolveFields(map["date" := Str(text)], state, inspect)
    ensures At(f, "date") == Str(text)
    ensures At(f, "service_type") == Null && At(f, "status") == Null
    ensures At(f, "notes") == Null && At(f, "metadata") == Null
  {
    NoBraceNoPlaceholder(text);
    Verbatim(text, Resolver(state, inspect));
    f := ResolveFields(map["date" := Str(text)], state, inspect);
  }

  /** With only a date that parses, the booking made carries every
      default and passes validation. */
  lemma DefaultBooking(ctx: Context, f: map<string, Value>, inspect: Inspector, tenant: Option<nat>,
                       parseDate: DateParser, newId: nat, text: string, d: Date)
    requires At(f, "date") == Str(text) && text != "" && parseDate(text) == Some(d)
    requires At(f, "service_type") == Null && At(f, "status") == Null
    requires At(f, "notes") == Null && At(f, "metadata") == Null
    requires ctx.customer.Some?
    ensures CreateRecord(BookingModel, ctx, f, inspect, tenant, parseDate, newId) ==
              Some(Made(CreatedBooking(newId, Booking(Some(ctx.customer.value.brandId), Some(ctx.customer.value.id),
                                                      Some("consultation"), Some(d), Some("pending"), None, Hash(map[])))))
  {
    var b := BookingAttrs(ctx.customer.value.brandId, ctx.customer.value, f, Some(d), inspect);
    assert !Text.IsSpace("consultation"[0]) && !Text.IsSpace("pending"[0]);
    assert BookingErrors(b) == {};
  }

  /** A field given as `false` takes the default like a missing one. */
  lemma FalseTakesDefault(brand: nat, customer: CustomerRef, f: map<string, Value>, inspect: Inspector)
    requires At(f, "form_type") == Bool(false)
    ensures LeadAttrs(brand, customer, f, inspect).formType == Some("contact")
  {
  }

  /** String field values are rendered with the shared placeholder
      renderer: a value that is exactly one placeholder becomes the text of
      the state entry it names. */
  lemma FieldPlaceholder(state: map<string, Value>, inspect: Inspector, key: string)
    requires key != "" && '.' !in key && '}' !in key && '\n' !in key
    ensures Substitute(Str(Open + key + Close), state, inspect) == Str(ToS(At(state, key), inspect))
  {
    SinglePlaceholder(state, inspect, key);
  }

  /** String fields reach a created booking rendered against the context:
      the service type, status and notes as rendered, and a non-empty
      rendered date through the date parser. */
  lemma BookingFieldsRendered(ctx: Context, step: StepDef, inspect: Inspector, tenant: Option<nat>,
                              parseDate: DateParser, newId: nat, fields: map<string, Value>)
    requires ResolveModel(Field(step, "model"), inspect) == Some(BookingModel)
    requires Field(step, "fields") == Hash(fields)
    ensures var r := Call(ctx, step, inspect, tenant, parseDate, newId);
            r.created.Some? ==> (r.created.value.CreatedBooking? &&
            var b := r.created.value.booking;
            ("service_type" in fields && fields["service_type"].Str? ==>
               b.serviceType == Some(Render(fields["service_type"].s, ctx.state, inspect))) &&
            ("status" in fields && fields["status"].Str? ==>
               b.status == Some(Render(fields["status"].s, ctx.state, inspect))) &&
            ("notes" in fields && fields["notes"].Str? ==>
               b.notes == Some(Render(fields["notes"].s, ctx.state, inspect))) &&
            ("date" in fields && fields["date"].Str? && Render(fields["date"].s, ctx.state, inspect) != "" ==>
               b.date == parseDate(Render(fields["date"].s, ctx.state, inspect))))
  {
    var f := ResolveFields(fields, ctx.state, inspect);
    assert FieldsOf(Or(Field(step, "fields"), Hash(map[]))) == Some(fields);
    var kind := ResolveModel(Field(step, "model"), inspect).value;
    var c := CreateRecord(kind, ctx, f, inspect, tenant, parseDate, newId);
    if Call(ctx, step, inspect, tenant, parseDate, newId).created.Some? {
      assert c.Some? && c.value.Made?;
    }
  }

  /** String fields reach a created lead rendered against the context. */
  lemma LeadFieldsRendered(ctx: Context, step: StepDef, inspect: Inspector, tenant: Option<nat>,
                           parseDate: DateParser, newId: nat, fields: map<string, Value>)
    requires ResolveModel(Field(step, "model"), inspect) == Some(LeadModel)
    requires Field(step, "fields") == Hash(fields)
    ensures var r := Call(ctx, step, inspect, tenant, parseDate, newId);
            r.created.Some? ==> (r.created.value.CreatedLead? &&
            var l := r.created.value.lead;
            ("form_type" in fields && fields["form_type"].Str? ==>
               l.formType == Some(Render(fields["form_type"].s, ctx.state, inspect))) &&
            ("status" in fields && fields["status"].Str? ==>
               l.status == Some(Render(fields["status"].s, ctx.state, inspect))))
  {
    var f := ResolveFields(fields, ctx.state, inspect);
    assert FieldsOf(Or(Field(step, "fields"), Hash(map[]))) == Some(fields);
    var kind := ResolveModel(Field(step, "model"), inspect).value;
    var c := CreateRecord(kind, ctx, f, inspect, tenant, parseDate, newId);
    if Call(ctx, step, inspect, tenant, parseDate, newId).created.Some? {
      assert c.Some? && c.value.Made?;
    }
  }

  /** A field that starts with one placeholder followed by plain text, as in
      `"{{context.name}} consultation"`, becomes the entry's text followed
      by that text. */
  lemma PlaceholderThenText(state: map<string, Value>, inspect: Inspector, key: string, tail: string)
    requires key != "" && '.' !in key && '}' !in key && '\n' !in key
    requires '{' !in tail
    ensures Substitute(Str(Open + key + Close + tail), state, inspect) == Str(ToS(At(state, key), inspect) + tail)
  {
    var f := Resolver(state, inspect);
    SubstHead(key, tail, f);
    NoBraceNoPlaceholder(tail);
    Verbatim(tail, f);
    SingleKey(state, key);
    assert f(key) == ToS(At(state, key), inspect);
  }
}
