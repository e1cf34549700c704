/**
 * The records the services return, and the Go struct shapes encoding/json
 * fills them through. Each record has a schema (`...Type`, the field names
 * are the JSON tags) and a projection from a decoded value of that schema.
 * `UnifiedAccessPass` is referenced by the services but its declaration is
 * not part of this model; it is given the one field the services rely on,
 * `details`, a list of cards.
 */
module Models {
  import opened Wrappers
  import opened GoStrings
  import opened Platform
  import opened GoDecode

  /** An NFC key or access pass. */
  datatype Card = Card(
    id: Bytes,
    cardTemplateId: Bytes,
    employeeId: Bytes,
    cardNumber: Bytes,
    siteCode: Bytes,
    fullName: Bytes,
    email: Bytes,
    phoneNumber: Bytes,
    classification: Bytes,
    startDate: Time,
    expirationDate: Time,
    employeePhoto: Bytes,
    state: Bytes,
    installUrl: Bytes,
    createdAt: Time,
    updatedAt: Time)

  /** A pass grouping several cards. */
  datatype UnifiedAccessPass = UnifiedAccessPass(details: seq<Card>)

  /** What provisioning or reading a card yields: one card, or a pass of several. */
  datatype Union = SingleCard(card: Card) | AccessPass(pass: UnifiedAccessPass)

  datatype TemplateDesign = TemplateDesign(
    backgroundColor: Bytes,
    labelColor: Bytes,
    labelSecondaryColor: Bytes,
    backgroundImage: Bytes,
    logoImage: Bytes,
    iconImage: Bytes)

  datatype SupportInfo = SupportInfo(
    supportUrl: Bytes,
    supportPhoneNumber: Bytes,
    supportEmail: Bytes,
    privacyPolicyUrl: Bytes,
    termsAndConditionsUrl: Bytes)

  /** A card template of the enterprise console. */
  datatype Template = Template(
    id: Bytes,
    name: Bytes,
    platform: Bytes,
    useCase: Bytes,
    protocol: Bytes,
    watchCount: int,
    iphoneCount: int,
    design: TemplateDesign,
    supportInfo: SupportInfo,
    createdAt: Time,
    updatedAt: Time)

  /** An entry of a template's event log. */
  datatype Event = Event(
    id: Bytes,
    eventType: Bytes,
    userId: Bytes,
    cardId: Bytes,
    templateId: Bytes,
    device: Bytes,
    timestamp: Time,
    details: Bytes)

  /** The optional filters of an event-log query; `None` is a nil `*time.Time`. */
  datatype EventLogFilters = EventLogFilters(
    device: Bytes,
    startDate: Option<Time>,
    endDate: Option<Time>,
    eventType: Bytes)

  // ---------------------------------------------------------------------
  // Schemas: the struct types encoding/json decodes into.
  // ---------------------------------------------------------------------

  const CardType: GoType := StructT([
    StringField("id"), StringField("card_template_id"), StringField("employee_id"),
    StringField("card_number"), StringField("site_code"), StringField("full_name"),
    StringField("email"), StringField("phone_number"), StringField("classification"),
    TimeField("start_date"), TimeField("expiration_date"), StringField("employee_photo"),
    StringField("state"), StringField("install_url"), TimeField("created_at"),
    TimeField("updated_at")])

  const DesignType: GoType := StructT([
    StringField("background_color"), StringField("label_color"), StringField("label_secondary_color"),
    StringField("background_image"), StringField("logo_image"), StringField("icon_image")])

  const SupportInfoType: GoType := StructT([
    StringField("support_url"), StringField("support_phone_number"), StringField("support_email"),
    StringField("privacy_policy_url"), StringField("terms_and_conditions_url")])

  const TemplateType: GoType := StructT([
    StringField("id"), StringField("name"), StringField("platform"), StringField("use_case"),
    StringField("protocol"), IntField("watch_count"), IntField("iphone_count"),
    Field(Ascii("design"), DesignType), Field(Ascii("support_info"), SupportInfoType),
    TimeField("created_at"), TimeField("updated_at")])

  const EventType: GoType := StructT([
    StringField("id"), StringField("type"), StringField("user_id"), StringField("card_id"),
    StringField("template_id"), StringField("device"), TimeField("timestamp"), StringField("details")])

  const DetailsKey: Bytes := Ascii("details")

  /** `models.UnifiedAccessPass`: a struct whose `details` field is a slice of cards. */
  const PassType: GoType := StructT([Field(DetailsKey, SliceT(CardType))])

  // ---------------------------------------------------------------------
  // Projections from decoded values to the records.
  // ---------------------------------------------------------------------

  function CardOf(v: Value): Card {
    var f := FieldsOf(v);
    Card(StrAt(f, 0), StrAt(f, 1), StrAt(f, 2), StrAt(f, 3), StrAt(f, 4), StrAt(f, 5), StrAt(f, 6),
         StrAt(f, 7), StrAt(f, 8), TimeAt(f, 9), TimeAt(f, 10), StrAt(f, 11), StrAt(f, 12),
         StrAt(f, 13), TimeAt(f, 14), TimeAt(f, 15))
  }

  function CardsOf(vs: seq<Value>): (r: seq<Card>)
    ensures |r| == |vs|
  {
    seq(|vs|, i requires 0 <= i < |vs| => CardOf(vs[i]))
  }

  function PassOf(v: Value): UnifiedAccessPass {
    UnifiedAccessPass(CardsOf(ItemsOf(if |FieldsOf(v)| > 0 then FieldsOf(v)[0] else VSlice(None))))
  }

  function DesignOf(v: Value): TemplateDesign {
    var f := FieldsOf(v);
    TemplateDesign(StrAt(f, 0), StrAt(f, 1), StrAt(f, 2), StrAt(f, 3), StrAt(f, 4), StrAt(f, 5))
  }

  function SupportInfoOf(v: Value): SupportInfo {
    var f := FieldsOf(v);
    SupportInfo(StrAt(f, 0), StrAt(f, 1), StrAt(f, 2), StrAt(f, 3), StrAt(f, 4))
  }

  function TemplateOf(v: Value): Template {
    var f := FieldsOf(v);
    Template(StrAt(f, 0), StrAt(f, 1), StrAt(f, 2), StrAt(f, 3), StrAt(f, 4), IntAt(f, 5), IntAt(f, 6),
             DesignOf(if 7 < |f| then f[7] else VStruct([])),
             SupportInfoOf(if 8 < |f| then f[8] else VStruct([])),
             TimeAt(f, 9), TimeAt(f, 10))
  }

  function TemplatesOf(vs: seq<Value>): (r: seq<Template>)
    ensures |r| == |vs|
  {
    seq(|vs|, i requires 0 <= i < |vs| => TemplateOf(vs[i]))
  }

  function EventOf(v: Value): Event {
    var f := FieldsOf(v);
    Event(StrAt(f, 0), StrAt(f, 1), StrAt(f, 2), StrAt(f, 3), StrAt(f, 4), StrAt(f, 5), TimeAt(f, 6), StrAt(f, 7))
  }

  function EventsOf(vs: seq<Value>): (r: seq<Event>)
    ensures |r| == |vs|
  {
    seq(|vs|, i requires 0 <= i < |vs| => EventOf(vs[i]))
  }
}
