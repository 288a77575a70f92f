/**
 * The Pipedrive side of the synchronisation: the JSON bodies the `Add.*`
 * and `Update.*` calls send, the lookup of a custom-field option
 * (`find_custom_field`), the pickers that read the first hit out of a
 * search answer (`Search.*`), and what each call makes of the answer it
 * gets.  Every HTTP exchange is an answer supplied from outside.
 */
module Pipedrive {

  import opened Wrappers
  import opened Py
  import opened Strings
  import opened Dates
  import Helper
  import opened Insly

  /** The user every record is created for and owned by (`CREATOR_USER_ID`). */
  const CreatorUserId: int := 22609901

  /** `visible_to` on every organization, person and deal. */
  const VisibleToAll: int := 3

  /** The pipeline stage a won deal is moved to. */
  const WonStageId: int := 5

  /** The time of day put on a won deal's `won_time`. */
  const WonTimeSuffix: string := "T09:00:00Z"

  // Keys of the custom fields the bodies fill in.
  const InslyOidKey: string := "86cae975675fb340afc1574e4743ae2f91604c62"
  const PolicyNoKey: string := "30bbd24791ef12c955ed795a6e93d64c4fd31fa1"
  const ProductKey: string := "361d053d9234bc515f0884ecb4a12958c3b50574"
  const ObjectsKey: string := "6981d2e1dc3d0212c5e581a4d627a18ac976f83f"
  const EndDateKey: string := "bee031bba9bdbeec53a9f85186f2a9f853fa8809"
  const InsurerKey: string := "d897fe9647fdb08f70ff8abacf75a4e1c6078c5c"

  /** The top-level keys of the bodies the calls send. */
  datatype Field =
    | Name | OwnerId | AddTime | VisibleTo | Address | CustomFields | Emails | Phones
    | Title | Currency | Amount | ExpectedCloseDate | Status | WonTime | LostTime | StageId
    | OrgId | PersonId | Content | DealId | UserId

  /** The JSON key of each field. */
  function JsonKey(f: Field): string {
    match f
    case Name => "name"
    case OwnerId => "owner_id"
    case AddTime => "add_time"
    case VisibleTo => "visible_to"
    case Address => "address"
    case CustomFields => "custom_fields"
    case Emails => "emails"
    case Phones => "phones"
    case Title => "title"
    case Currency => "currency"
    case Amount => "value"
    case ExpectedCloseDate => "expected_close_date"
    case Status => "status"
    case WonTime => "won_time"
    case LostTime => "lost_time"
    case StageId => "stage_id"
    case OrgId => "org_id"
    case PersonId => "person_id"
    case Content => "content"
    case DealId => "deal_id"
    case UserId => "user_id"
  }

  /** A JSON object a call sends, keyed by its fields. */
  type Body = map<Field, Value>

  /** `v[key]` on a decoded JSON value: a missing key or a non-object raises. */
  function Get(v: Value, key: string): (r: Result<Value, Exception>)
    ensures r.Success? <==> v.Obj? && key in v.fields
    ensures r.Success? ==> r.value == v.fields[key]
    ensures r.Failure? ==> r.error == Other
  {
    if v.Obj? && key in v.fields then Success(v.fields[key]) else Failure(Other)
  }

  // =====================================================================
  // find_custom_field

  /** An option of a deal field as the option list holds it: an object with a string label and an id. */
  predicate WellFormedOption(v: Value) {
    v.Obj? && "label" in v.fields && v.fields["label"].Str? && "id" in v.fields
  }

  /** `option_label.lower() in option['label'].lower()`. */
  predicate OptionMatches(option: Value, query: string)
    requires WellFormedOption(option)
  {
    Contains(Lower(option.fields["label"].s), Lower(query))
  }

  /**
   * The `for option in options` loop: the id of the first option whose
   * lowercased label contains the lowercased query, or nothing.  The query
   * is lowercased afresh for each option, so a non-string query only raises
   * once there is an option to compare it with.
   */
  function ScanOptions(options: seq<Value>, query: Value): (r: Result<Option<Value>, Exception>)
    ensures r.Failure? ==> r.error == Other
    decreases |options|
  {
    if options == [] then Success(None)
    else if !query.Str? then Failure(Other)
    else
      match Get(options[0], "label")
      case Failure(e) => Failure(e)
      case Success(caption) =>
        if !caption.Str? then Failure(Other)
        else if Contains(Lower(caption.s), Lower(query.s)) then
          match Get(options[0], "id")
          case Failure(e) => Failure(e)
          case Success(id) => Success(Some(id))
        else ScanOptions(options[1..], query)
  }

  /**
   * `find_custom_field(key, option_label)` with `answer` for the request to
   * the field's options: a falsy label returns at once; on 200 the options
   * are scanned; another status prints the body (which must then be JSON)
   * and returns nothing.
   */
  function FindCustomField(answer: HttpAnswer<Option<Value>>, query: Value): (r: Result<Option<Value>, Exception>)
    ensures !Truthy(query) ==> r == Success(None)
    ensures Truthy(query) && answer.Raise? ==> r == Failure(answer.error)
    ensures Truthy(query) && answer.Response? && answer.body.None? ==> r == Failure(ValueErr)
    ensures Truthy(query) && answer.Response? && answer.status != HttpOk && answer.body.Some? ==> r == Success(None)
  {
    if !Truthy(query) then Success(None)
    else
      match answer
      case Raise(e) => Failure(e)
      case Response(status, body) =>
        if body.None? then Failure(ValueErr)
        else if status != HttpOk then Success(None)
        else
          match Get(body.value, "data")
          case Failure(e) => Failure(e)
          case Success(data) =>
            match Get(data, "options")
            case Failure(e) => Failure(e)
            case Success(options) =>
              match options
              case Arr(items) => ScanOptions(items, query)
              case Str(s) => if s == "" then Success(None) else Failure(Other)
              case Obj(fields) => if fields == map[] then Success(None) else Failure(Other)
              case _ => Failure(Other)
  }

  /**
   * A decoded answer body whose `data` is an object holding `key` with
   * value `v`.  Any other keys, beside `data` or inside it, are free.
   */
  predicate HoldsData(body: Value, key: string, v: Value) {
    && body.Obj? && "data" in body.fields && body.fields["data"].Obj?
    && key in body.fields["data"].fields && body.fields["data"].fields[key] == v
  }

  /**
   * Over well-formed options, the scan finds the first option that matches
   * and nothing when none does.
   */
  lemma {:induction false} ScanOptionsFirstMatch(options: seq<Value>, query: string)
    requires forall k | 0 <= k < |options| :: WellFormedOption(options[k])
    ensures ScanOptions(options, Str(query)).Success?
    ensures ScanOptions(options, Str(query)) == Success(None) <==>
              forall k | 0 <= k < |options| :: !OptionMatches(options[k], query)
    ensures forall k | 0 <= k < |options| && OptionMatches(options[k], query) &&
                       (forall j | 0 <= j < k :: !OptionMatches(options[j], query)) ::
              ScanOptions(options, Str(query)) == Success(Some(options[k].fields["id"]))
    decreases |options|
  {
    if options != [] {
      var tail := options[1..];
      assert forall k | 0 <= k < |tail| :: tail[k] == options[k + 1];
      ScanOptionsFirstMatch(tail, query);
      if !OptionMatches(options[0], query) {
        forall k | 0 <= k < |options| && OptionMatches(options[k], query) &&
                   (forall j | 0 <= j < k :: !OptionMatches(options[j], query))
          ensures ScanOptions(options, Str(query)) == Success(Some(options[k].fields["id"]))
        {
          assert k != 0;
          assert forall j | 0 <= j < k - 1 :: tail[j] == options[j + 1];
        }
      }
    }
  }

  /**
   * `find_custom_field` on any 200 answer whose `data.options` is a list of
   * well-formed options: nothing for a falsy label, otherwise the id of the
   * first option whose label contains the query (ignoring ASCII case), and
   * nothing when none does.
   */
  lemma FindCustomFieldFirstMatch(body: Value, items: seq<Value>, query: string)
    requires HoldsData(body, "options", Arr(items))
    requires forall k | 0 <= k < |items| :: WellFormedOption(items[k])
    ensures query == "" ==> FindCustomField(Response(HttpOk, Some(body)), Str(query)) == Success(None)
    ensures query != "" ==>
              (FindCustomField(Response(HttpOk, Some(body)), Str(query)) == Success(None) <==>
               forall k | 0 <= k < |items| :: !OptionMatches(items[k], query))
    ensures query != "" ==>
              forall k | 0 <= k < |items| && OptionMatches(items[k], query) &&
                         (forall j | 0 <= j < k :: !OptionMatches(items[j], query)) ::
                FindCustomField(Response(HttpOk, Some(body)), Str(query)) == Success(Some(items[k].fields["id"]))
  {
    FindCustomFieldScans(body, items, query);
    ScanOptionsFirstMatch(items, query);
  }

  /** On any 200 answer whose `data.options` is a list, a non-empty label is looked up by scanning that list. */
  lemma FindCustomFieldScans(body: Value, items: seq<Value>, query: string)
    requires HoldsData(body, "options", Arr(items))
    ensures query != "" ==> FindCustomField(Response(HttpOk, Some(body)), Str(query)) == ScanOptions(items, Str(query))
  {
  }

  // =====================================================================
  // Search.organization, Search.person, Search.deal, Search.note

  /** What a search call returns: the first hit, `(None, None)`, or `None` after a failed request. */
  datatype Found = Found(id: Value, name: Value) | NotFound | NoAnswer

  /** `item['item']['id']` and `item['item'][nameKey]` of one search item. */
  function ItemHit(item: Value, nameKey: string): (r: Result<Found, Exception>)
    ensures r.Success? ==> r.value.Found?
  {
    match Get(item, "item")
    case Failure(e) => Failure(e)
    case Success(inner) =>
      match Get(inner, "id")
      case Failure(e) => Failure(e)
      case Success(id) =>
        match Get(inner, nameKey)
        case Failure(e) => Failure(e)
        case Success(name) => Success(Found(id, name))
  }

  /**
   * `Search.organization`, `Search.person` (`nameKey` "name") and
   * `Search.deal` (`nameKey` "title"): on 200 the first item of
   * `data.items` when there are items, `(None, None)` when there are none;
   * another status prints the body and returns `None`.
   */
  function SearchEntity(answer: HttpAnswer<Option<Value>>, nameKey: string): (r: Result<Found, Exception>)
    ensures answer.Raise? ==> r == Failure(answer.error)
    ensures answer.Response? && answer.body.None? ==> r == Failure(ValueErr)
    ensures answer.Response? && answer.status != HttpOk && answer.body.Some? ==> r == Success(NoAnswer)
    ensures r.Success? && r.value.Found? ==> answer.Response? && answer.status == HttpOk
  {
    match answer
    case Raise(e) => Failure(e)
    case Response(status, body) =>
      if body.None? then Failure(ValueErr)
      else if status != HttpOk then Success(NoAnswer)
      else
        match Get(body.value, "data")
        case Failure(e) => Failure(e)
        case Success(data) =>
          match Get(data, "items")
          case Failure(e) => Failure(e)
          case Success(items) =>
            if !Truthy(items) then Success(NotFound)
            else if items.Arr? then ItemHit(items.items[0], nameKey)
            else Failure(Other)
  }

  /**
   * On any 200 answer whose `data.items` is a non-empty list, the search
   * reads the first item only: whatever follows it changes nothing.
   */
  lemma SearchFirstOnly(body: Value, first: Value, rest: seq<Value>, nameKey: string)
    requires HoldsData(body, "items", Arr([first] + rest))
    ensures SearchEntity(Response(HttpOk, Some(body)), nameKey) == ItemHit(first, nameKey)
  {
    assert ([first] + rest)[0] == first;
  }

  /** On any 200 answer, falsy `data.items` (null, an empty list, ...) is `(None, None)`. */
  lemma SearchNoItems(body: Value, items: Value, nameKey: string)
    requires HoldsData(body, "items", items) && !Truthy(items)
    ensures SearchEntity(Response(HttpOk, Some(body)), nameKey) == Success(NotFound)
  {
  }

  /**
   * `Search.note(deal_id)`: on 200 the id of the first note of `data`, or
   * `None` when `data` is null; another status prints the body and returns
   * `None`.
   */
  function SearchNote(answer: HttpAnswer<Option<Value>>): (r: Result<Option<Value>, Exception>)
    ensures answer.Raise? ==> r == Failure(answer.error)
    ensures answer.Response? && answer.body.None? ==> r == Failure(ValueErr)
    ensures answer.Response? && answer.status != HttpOk && answer.body.Some? ==> r == Success(None)
  {
    match answer
    case Raise(e) => Failure(e)
    case Response(status, body) =>
      if body.None? then Failure(ValueErr)
      else if status != HttpOk then Success(None)
      else
        match Get(body.value, "data")
        case Failure(e) => Failure(e)
        case Success(data) =>
          if data.Null? then Success(None)
          else if data.Arr? && data.items != [] then
            match Get(data.items[0], "id")
            case Failure(e) => Failure(e)
            case Success(id) => Success(Some(id))
          else Failure(Other)
  }

  /** A decoded answer body that holds `data` with value `v`, beside any other keys. */
  predicate HoldsTop(body: Value, v: Value) {
    body.Obj? && "data" in body.fields && body.fields["data"] == v
  }

  /**
   * On any 200 answer, the note search reads the first note of `data` only;
   * null means none; an empty list raises IndexError.
   */
  lemma SearchNoteFirstOnly(body: Value, data: Value)
    requires HoldsTop(body, data)
    ensures data.Null? ==> SearchNote(Response(HttpOk, Some(body))) == Success(None)
    ensures data == Arr([]) ==> SearchNote(Response(HttpOk, Some(body))) == Failure(Other)
    ensures data.Arr? && data.items != [] && data.items[0].Obj? && "id" in data.items[0].fields ==>
              SearchNote(Response(HttpOk, Some(body))) == Success(Some(data.items[0].fields["id"]))
    ensures data.Arr? && data.items != [] && !(data.items[0].Obj? && "id" in data.items[0].fields) ==>
              SearchNote(Response(HttpOk, Some(body))) == Failure(Other)
  {
  }

  // =====================================================================
  // Bodies

  /** The keys every organization, person and deal body starts with besides its name or title. */
  predicate Owned(b: Body) {
    OwnerId in b && b[OwnerId] == Int(CreatorUserId) && VisibleTo in b && b[VisibleTo] == Int(VisibleToAll)
  }

  /** `Add.organization(org_name, oid, address_info_array)`, stamped with `addTime`. */
  function CreateOrganizationBody(orgName: Value, addTime: string, addresses: seq<AddressRow>): (b: Body) {
    var base := map[Name := orgName, OwnerId := Int(CreatorUserId), AddTime := Str(addTime), VisibleTo := Int(VisibleToAll)];
    if addresses == [] then base
    else
      var a := addresses[0];
      base[Address := Obj(map["value" := a.value, "country" := a.country, "postal_code" := a.zip])]
  }

  /** `Update.organization(org_id, org_name, oid)`. */
  function UpdateOrganizationBody(orgName: Value): (b: Body) {
    map[Name := orgName, OwnerId := Int(CreatorUserId), VisibleTo := Int(VisibleToAll)]
  }

  /** The organization bodies: owned by the creator, named as asked, an address exactly when one is given, from the first row. */
  lemma OrganizationBodies(orgName: Value, addTime: string, addresses: seq<AddressRow>)
    ensures var b := CreateOrganizationBody(orgName, addTime, addresses);
            && Owned(b) && b[Name] == orgName && b[AddTime] == Str(addTime)
            && (Address in b <==> addresses != [])
            && (addresses != [] ==> b[Address] == Obj(map["value" := addresses[0].value,
                                                          "country" := addresses[0].country,
                                                          "postal_code" := addresses[0].zip]))
    ensures var b := UpdateOrganizationBody(orgName);
            Owned(b) && b[Name] == orgName && b.Keys == {Name, OwnerId, VisibleTo}
  {
  }

  /** `info[k] and valid(info[k])`: a falsy value is left out, a string is checked, anything else has no `re.match`. */
  function Accepted(v: Value, email: bool): (r: Result<bool, Exception>)
    ensures !Truthy(v) ==> r == Success(false)
    ensures Truthy(v) && v.Str? && email ==> r == Success(Helper.IsEmailValid(v.s))
    ensures Truthy(v) && v.Str? && !email ==> r == Success(Helper.IsPhoneValid(v.s))
    ensures Truthy(v) && !v.Str? ==> r == Failure(Other)
  {
    if !Truthy(v) then Success(false)
    else if !v.Str? then Failure(Other)
    else if email then Success(Helper.IsEmailValid(v.s))
    else Success(Helper.IsPhoneValid(v.s))
  }

  /** The one-element contact list `[{"value": v, "primary": True, "label": label}]`. */
  function Contact(v: Value, kind: string): Value {
    Arr([Obj(map["value" := v, "primary" := Bool(true), "label" := Str(kind)])])
  }

  /** The body `Add.person(info)` and `Update.person(person_id, info)` both send. */
  function PersonBody(info: CustomerRow): (r: Result<Body, Exception>) {
    match Accepted(info.email, true)
    case Failure(e) => Failure(e)
    case Success(withEmail) =>
      match Accepted(info.phone, false)
      case Failure(e) => Failure(e)
      case Success(withPhone) => Success(PersonFields(info, withEmail, withPhone))
  }

  /** The person body once it is known whether the e-mail and the phone go in. */
  function PersonFields(info: CustomerRow, withEmail: bool, withPhone: bool): Body {
    var base := map[Name := info.name, OwnerId := Int(CreatorUserId), VisibleTo := Int(VisibleToAll),
                    CustomFields := Obj(map[InslyOidKey := info.oid])];
    var b1 := if withEmail then base[Emails := Contact(info.email, "email")] else base;
    if withPhone then b1[Phones := Contact(info.phone, "phone_number")] else b1
  }

  /**
   * A person body is built exactly when both checks pass without raising
   * (the e-mail is checked first), from what they answered.
   */
  lemma PersonBodyChecks(info: CustomerRow)
    ensures Accepted(info.email, true).Failure? ==> PersonBody(info) == Failure(Accepted(info.email, true).error)
    ensures Accepted(info.email, true).Success? && Accepted(info.phone, false).Failure? ==>
              PersonBody(info) == Failure(Accepted(info.phone, false).error)
    ensures Accepted(info.email, true).Success? && Accepted(info.phone, false).Success? ==>
              PersonBody(info) == Success(PersonFields(info, Accepted(info.email, true).value, Accepted(info.phone, false).value))
  {
  }

  /**
   * A person body always carries the owner, the name and the source
   * system's oid in its custom field; it lists the e-mail exactly when the
   * e-mail check passed, and the phone likewise.
   */
  lemma PersonFieldsContents(info: CustomerRow, withEmail: bool, withPhone: bool)
    ensures var b := PersonFields(info, withEmail, withPhone);
            && Owned(b) && Name in b && b[Name] == info.name
            && CustomFields in b && b[CustomFields] == Obj(map[InslyOidKey := info.oid])
            && (Emails in b <==> withEmail)
            && (Emails in b ==> b[Emails] == Contact(info.email, "email"))
            && (Phones in b <==> withPhone)
            && (Phones in b ==> b[Phones] == Contact(info.phone, "phone_number"))
  {
  }

  /** `won_time` of a won deal: the end date at 09:00:00 UTC; an end date that does not parse is a ValueError. */
  function WonTimeOf(dateEnd: string): (r: Result<string, Exception>)
    ensures r.Failure? <==> ParseIsoDate(dateEnd).None?
    ensures r.Failure? ==> r.error == ValueErr
  {
    match ParseIsoDate(dateEnd)
    case None => Failure(ValueErr)
    case Some(d) => Success(IsoDate(d) + WonTimeSuffix)
  }

  /** For an end date the policy fetch wrote, `won_time` is that date followed by `T09:00:00Z`. */
  lemma WonTimeOfIsoDate(d: Date)
    requires d.Valid()
    ensures WonTimeOf(IsoDate(d)) == Success(IsoDate(d) + WonTimeSuffix)
  {
    IsoRoundTrip(d);
  }

  /** The custom fields of a deal body. */
  function DealCustomFields(row: PolicyRow, product: Option<Value>, insurer: Option<Value>): Value {
    Obj(map[PolicyNoKey := row.number, ProductKey := OrNull(product), ObjectsKey := row.description,
            EndDateKey := Str(row.dateEnd), InsurerKey := OrNull(insurer)])
  }

  /** Python's `None` in a JSON body. */
  function OrNull(v: Option<Value>): Value {
    if v.Some? then v.value else Null
  }

  /** The keys both deal bodies start with. */
  function DealBase(row: PolicyRow, product: Option<Value>, insurer: Option<Value>): Body {
    map[Title := Str(row.title), OwnerId := Int(CreatorUserId), Currency := row.currency,
        Amount := row.sum, ExpectedCloseDate := Str(row.dateEnd), Status := row.installmentStatus,
        VisibleTo := Int(VisibleToAll), CustomFields := DealCustomFields(row, product, insurer)]
  }

  /** The deal's link to its organization or person. */
  function Linked(b: Body, entityId: Value, entype: string): Body {
    if entype == "org" then b[OrgId := entityId] else b[PersonId := entityId]
  }

  /** `policy_info_arr[7] == 'won'`. */
  predicate IsWon(row: PolicyRow) {
    row.installmentStatus == Str("won")
  }

  /**
   * `Add.deal(policy_info_arr, entity_id, entype)` (`create`) and
   * `Update.deal(deal_id, ...)` (not `create`), with the answers to the two
   * option lookups, product first and then insurer, as the dictionary is
   * written.
   */
  function DealBody(create: bool, row: PolicyRow, entityId: Value, entype: string,
                    productAnswer: HttpAnswer<Option<Value>>, insurerAnswer: HttpAnswer<Option<Value>>): (r: Result<Body, Exception>)
    ensures FindCustomField(productAnswer, row.productType).Failure? ==>
              r == Failure(FindCustomField(productAnswer, row.productType).error)
    ensures FindCustomField(productAnswer, row.productType).Success? && FindCustomField(insurerAnswer, row.insurer).Failure? ==>
              r == Failure(FindCustomField(insurerAnswer, row.insurer).error)
  {
    match FindCustomField(productAnswer, row.productType)
    case Failure(e) => Failure(e)
    case Success(product) =>
      match FindCustomField(insurerAnswer, row.insurer)
      case Failure(e) => Failure(e)
      case Success(insurer) => DealBodyWith(create, row, entityId, entype, product, insurer)
  }

  /**
   * The deal body once the two option ids are known.  A won deal gets
   * `won_time` and the won stage; otherwise a new deal gets empty
   * `won_time` and `lost_time` and an update nothing.
   */
  function DealBodyWith(create: bool, row: PolicyRow, entityId: Value, entype: string,
                        product: Option<Value>, insurer: Option<Value>): (r: Result<Body, Exception>)
  {
    var base := DealBase(row, product, insurer);
    if IsWon(row) then
      match WonTimeOf(row.dateEnd)
      case Failure(e) => Failure(e)
      case Success(t) => Success(Linked(base[WonTime := Str(t)][StageId := Int(WonStageId)], entityId, entype))
    else if create then
      Success(Linked(base[WonTime := Str("")][LostTime := Str("")], entityId, entype))
    else
      Success(Linked(base, entityId, entype))
  }

  /** With both lookups answered, the deal body is built from the ids they found (`None` where they found nothing). */
  lemma DealBodyUsesLookups(create: bool, row: PolicyRow, entityId: Value, entype: string,
                            productAnswer: HttpAnswer<Option<Value>>, insurerAnswer: HttpAnswer<Option<Value>>)
    requires FindCustomField(productAnswer, row.productType).Success?
    requires FindCustomField(insurerAnswer, row.insurer).Success?
    ensures DealBody(create, row, entityId, entype, productAnswer, insurerAnswer)
            == DealBodyWith(create, row, entityId, entype, FindCustomField(productAnswer, row.productType).value,
                            FindCustomField(insurerAnswer, row.insurer).value)
  {
  }

  /**
   * The keys every deal body shares: the owner and visibility, the title,
   * the currency and amount, the status, the close date and the custom
   * fields.
   */
  predicate DealCore(b: Body, row: PolicyRow, product: Option<Value>, insurer: Option<Value>) {
    && Owned(b)
    && Title in b && b[Title] == Str(row.title)
    && Currency in b && b[Currency] == row.currency
    && Amount in b && b[Amount] == row.sum
    && Status in b && b[Status] == row.installmentStatus
    && ExpectedCloseDate in b && b[ExpectedCloseDate] == Str(row.dateEnd)
    && CustomFields in b && b[CustomFields] == DealCustomFields(row, product, insurer)
  }

  lemma DealBaseCore(row: PolicyRow, product: Option<Value>, insurer: Option<Value>)
    ensures DealCore(DealBase(row, product, insurer), row, product, insurer)
    ensures OrgId !in DealBase(row, product, insurer) && PersonId !in DealBase(row, product, insurer)
    ensures LostTime !in DealBase(row, product, insurer)
  {
  }

  /** Setting a key outside the shared ones keeps them. */
  lemma ExtendKeepsCore(b: Body, k: Field, v: Value, row: PolicyRow, product: Option<Value>, insurer: Option<Value>)
    requires DealCore(b, row, product, insurer)
    requires k !in {OwnerId, VisibleTo, Title, Currency, Amount, Status, ExpectedCloseDate, CustomFields}
    ensures DealCore(b[k := v], row, product, insurer)
  {
  }

  /** Linking adds exactly one of `org_id` and `person_id`. */
  lemma LinkedCore(b: Body, entityId: Value, entype: string, row: PolicyRow, product: Option<Value>, insurer: Option<Value>)
    requires DealCore(b, row, product, insurer)
    requires OrgId !in b && PersonId !in b
    ensures var l := Linked(b, entityId, entype);
            && DealCore(l, row, product, insurer)
            && (OrgId in l <==> entype == "org") && (PersonId in l <==> entype != "org")
            && (entype == "org" ==> l[OrgId] == entityId)
            && (entype != "org" ==> l[PersonId] == entityId)
  {
    if entype == "org" {
      ExtendKeepsCore(b, OrgId, entityId, row, product, insurer);
    } else {
      ExtendKeepsCore(b, PersonId, entityId, row, product, insurer);
    }
  }

  /**
   * Every deal body is owned by the creator and carries exactly one entity
   * link, `org_id` for an organization and `person_id` otherwise; its
   * currency and value are the policy's, its status the first
   * installment's status, its close date the end date, and
   * its custom fields the policy number, the objects, the end date and the
   * two option ids.
   */
  lemma DealBodyLinkAndOwner(create: bool, row: PolicyRow, entityId: Value, entype: string,
                             product: Option<Value>, insurer: Option<Value>)
    requires DealBodyWith(create, row, entityId, entype, product, insurer).Success?
    ensures var b := DealBodyWith(create, row, entityId, entype, product, insurer).value;
            && DealCore(b, row, product, insurer)
            && (OrgId in b <==> entype == "org") && (PersonId in b <==> entype != "org")
            && (entype == "org" ==> b[OrgId] == entityId)
            && (entype != "org" ==> b[PersonId] == entityId)
  {
    var base := DealBase(row, product, insurer);
    DealBaseCore(row, product, insurer);
    if IsWon(row) {
      var t := WonTimeOf(row.dateEnd).value;
      var b1 := base[WonTime := Str(t)];
      ExtendKeepsCore(base, WonTime, Str(t), row, product, insurer);
      ExtendKeepsCore(b1, StageId, Int(WonStageId), row, product, insurer);
      LinkedCore(b1[StageId := Int(WonStageId)], entityId, entype, row, product, insurer);
    } else if create {
      var b1 := base[WonTime := Str("")];
      ExtendKeepsCore(base, WonTime, Str(""), row, product, insurer);
      ExtendKeepsCore(b1, LostTime, Str(""), row, product, insurer);
      LinkedCore(b1[LostTime := Str("")], entityId, entype, row, product, insurer);
    } else {
      LinkedCore(base, entityId, entype, row, product, insurer);
    }
  }

  /**
   * The won branch: `won_time` is the parsed end date at 09:00:00 and the
   * stage is 5, for a new deal and an update alike; an end date that does
   * not parse raises ValueError.
   */
  lemma DealBodyWon(create: bool, row: PolicyRow, entityId: Value, entype: string,
                    product: Option<Value>, insurer: Option<Value>)
    requires IsWon(row)
    ensures var r := DealBodyWith(create, row, entityId, entype, product, insurer);
            && (r.Failure? <==> ParseIsoDate(row.dateEnd).None?)
            && (r.Failure? ==> r.error == ValueErr)
  {
  }

  /** When the end date parses, the won body carries the won time and stage 5, and no `lost_time`. */
  lemma DealBodyWonStage(create: bool, row: PolicyRow, entityId: Value, entype: string,
                         product: Option<Value>, insurer: Option<Value>, t: string)
    requires IsWon(row) && WonTimeOf(row.dateEnd) == Success(t)
    ensures var r := DealBodyWith(create, row, entityId, entype, product, insurer);
            && r.Success? && r.value[WonTime] == Str(t) && r.value[StageId] == Int(WonStageId) && LostTime !in r.value
  {
    DealBodyWonIs(create, row, entityId, entype, product, insurer, t);
    DealBaseCore(row, product, insurer);
    WonKeys(DealBase(row, product, insurer), t, entityId, entype);
  }

  /** The won time and stage set on a body without `lost_time`, then linked. */
  lemma WonKeys(base: Body, t: string, entityId: Value, entype: string)
    requires LostTime !in base
    ensures var l := Linked(base[WonTime := Str(t)][StageId := Int(WonStageId)], entityId, entype);
            && WonTime in l && l[WonTime] == Str(t) && StageId in l && l[StageId] == Int(WonStageId) && LostTime !in l
  {
    var b := base[WonTime := Str(t)][StageId := Int(WonStageId)];
    LinkedKeeps(b, entityId, entype, WonTime);
    LinkedKeeps(b, entityId, entype, StageId);
    LinkedKeeps(b, entityId, entype, LostTime);
  }

  /** The won branch with the won time `t`. */
  lemma DealBodyWonIs(create: bool, row: PolicyRow, entityId: Value, entype: string,
                      product: Option<Value>, insurer: Option<Value>, t: string)
    requires IsWon(row) && WonTimeOf(row.dateEnd) == Success(t)
    ensures DealBodyWith(create, row, entityId, entype, product, insurer)
            == Success(Linked(DealBase(row, product, insurer)[WonTime := Str(t)][StageId := Int(WonStageId)], entityId, entype))
  {
  }

  /** Linking leaves every other key as it was. */
  lemma LinkedKeeps(b: Body, entityId: Value, entype: string, k: Field)
    requires k != OrgId && k != PersonId
    ensures k in Linked(b, entityId, entype) <==> k in b
    ensures k in b ==> Linked(b, entityId, entype)[k] == b[k]
  {
  }

  /**
   * The other branch: a new deal gets `won_time` and `lost_time` set to ""
   * and no stage; an update sends none of the three keys.
   */
  lemma DealBodyNotWon(create: bool, row: PolicyRow, entityId: Value, entype: string,
                       product: Option<Value>, insurer: Option<Value>)
    requires !IsWon(row)
    ensures DealBodyWith(create, row, entityId, entype, product, insurer).Success?
    ensures var b := DealBodyWith(create, row, entityId, entype, product, insurer).value;
            && StageId !in b
            && (create ==> b[WonTime] == Str("") && b[LostTime] == Str(""))
            && (!create ==> WonTime !in b && LostTime !in b)
  {
  }

  /** `Add.note(content, deal_id)` and `Update.note(note_id, content, deal_id)`. */
  function NoteBody(content: Value, dealId: Value): (b: Body)
    ensures UserId in b && b[UserId] == Int(CreatorUserId)
    ensures Content in b && b[Content] == content && DealId in b && b[DealId] == dealId
  {
    map[Content := content, DealId := dealId, UserId := Int(CreatorUserId)]
  }

  // =====================================================================
  // Answers to the writes

  /**
   * What a write makes of its answer.  On an accepted status the body's
   * `data.id` is read when `readsId` (and returned when `returnsId`);
   * on any other status the body is printed, so it must be JSON.
   * `Add.organization`, `Add.person`, `Add.deal`: accepted {200}, reads and
   * returns the id; `Add.note`: {200, 201}, reads it; `Update.note`: {200},
   * reads it; the other updates: {200}, read nothing.
   */
  function WriteResult(answer: HttpAnswer<Option<Value>>, accepted: set<int>, readsId: bool, returnsId: bool): (r: Result<Option<Value>, Exception>)
    ensures answer.Raise? ==> r == Failure(answer.error)
    ensures r.Success? && r.value.Some? ==> returnsId && answer.Response? && answer.status in accepted
    ensures answer.Response? && answer.status !in accepted ==>
              r == (if answer.body.None? then Failure(ValueErr) else Success(None))
  {
    match answer
    case Raise(e) => Failure(e)
    case Response(status, body) =>
      if status in accepted then
        if !readsId then Success(None)
        else if body.None? then Failure(ValueErr)
        else
          match Get(body.value, "data")
          case Failure(e) => Failure(e)
          case Success(data) =>
            match Get(data, "id")
            case Failure(e) => Failure(e)
            case Success(id) => Success(if returnsId then Some(id) else None)
      else if body.None? then Failure(ValueErr)
      else Success(None)
  }

  /**
   * A write that reads the id, on any accepted answer whose `data.id` is
   * `id`: `Add.*` returns the id of the record the CRM created, and
   * `Add.note` and `Update.note` read it and return nothing.
   */
  lemma AddReturnsCreatedId(status: int, body: Value, accepted: set<int>, returnsId: bool, id: Value)
    requires status in accepted && HoldsData(body, "id", id)
    ensures WriteResult(Response(status, Some(body)), accepted, true, returnsId) == Success(if returnsId then Some(id) else None)
  {
  }
}
