/**
 * The decision logic of the request handlers (app.py). A request's form is a
 * map from field names to submitted text; the session is an explicit record
 * passed in and handed back; store writes go through the `Store` operations.
 */
module App {
  import opened Wrappers
  import opened Text
  import opened Search
  import opened Models

  /** The submitted form fields. */
  type Form = map<string, string>

  /** `request.form.get(key)`. */
  function Field(form: Form, key: string): Option<string> {
    if key in form then Some(form[key]) else None
  }

  /** `request.form.get(key, default)`. */
  function FieldOr(form: Form, key: string, default: string): string {
    Field(form, key).GetOr(default)
  }

  /** The session's three keys: `user_id`, `user_name` and `is_admin`, each possibly absent. */
  datatype Session = Session(userId: Option<int>, userName: Option<string>, isAdmin: Option<bool>)

  /** A session with no keys. */
  const NoSession := Session(None, None, None)

  /** `'user_id' in session`: the guard of the order page. */
  predicate SignedIn(s: Session) {
    s.userId.Some?
  }

  /** `session.get('is_admin', False)`. */
  predicate AdminFlag(s: Session) {
    s.isAdmin == Some(true)
  }

  /** The guard of the admin page: a user id and a true admin flag. */
  predicate AdminSignedIn(s: Session) {
    SignedIn(s) && AdminFlag(s)
  }

  // ---------------------------------------------------------------------------
  // Bootstrap

  /** The name of the default admin created at start-up. */
  const DefaultAdminName := "admin"

  /**
   * `ensure_admin_exists`: when no colleague is an admin, insert the default
   * admin with the configured password. The insert is refused when a non-admin
   * colleague already holds the name "admin", and by the driver when the
   * password holds U+0000; `ok` reports whether an admin exists afterwards.
   */
  method EnsureAdminExists(store: Store, defaultPassword: string) returns (ok: bool)
    requires store.Valid()
    modifies store
    ensures store.Valid()
    ensures ok <==> AdminExists(store.colleagues)
    ensures old(AdminExists(store.colleagues)) ==> unchanged(store)
    ensures !old(AdminExists(store.colleagues)) ==>
              && (ok <==> DefaultAdminName !in ColleagueNames(old(store.colleagues)) && DriverAccepts(defaultPassword))
              && store.colleagues == (if ok then old(store.colleagues) + [Colleague(old(store.nextColleagueId), DefaultAdminName, true, Some(defaultPassword))]
                                      else old(store.colleagues))
              && store.nextColleagueId == old(store.nextColleagueId) + (if DriverAccepts(defaultPassword) then 1 else 0)
    ensures store.sandwiches == old(store.sandwiches) && store.orders == old(store.orders)
    ensures store.orderItems == old(store.orderItems)
    ensures store.nextSandwichId == old(store.nextSandwichId) && store.nextOrderId == old(store.nextOrderId)
  {
    if AdminExists(store.colleagues) {
      return true;
    }
    ok := store.AddColleague(DefaultAdminName, true, Some(defaultPassword));
    assert ok ==> store.colleagues[|store.colleagues| - 1].isAdmin;
  }

  // ---------------------------------------------------------------------------
  // Login

  /** Who a successful login signs in, and in which role. */
  datatype Principal = Principal(colleagueId: int, name: string, isAdmin: bool)

  /** The test of the non-admin scan: exactly that name, admin flag false. */
  function NonAdminNamed(name: string): Colleague -> bool {
    (c: Colleague) => c.name == name && !c.isAdmin
  }

  /**
   * Role resolution for a trimmed name and password: an admin whose name and
   * password both match; failing that, the first colleague in name order who is
   * not an admin and has that name, whatever the password.
   */
  function Authenticate(cs: seq<Colleague>, name: string, password: string): Option<Principal> {
    match AdminByCredentials(cs, name, password)
    case Some(a) => Some(Principal(a.colleagueId, a.name, true))
    case None =>
      var listing := AllColleagues(cs);
      match FirstWhere(listing, NonAdminNamed(name))
      case Some(i) => Some(Principal(listing[i].colleagueId, listing[i].name, false))
      case None => None
  }

  /**
   * A login attempt on the stripped fields. The admin query sends both to the
   * driver, which refuses text holding U+0000; the request then fails and
   * nobody is signed in. Otherwise role resolution decides.
   */
  function Attempt(cs: seq<Colleague>, name: string, password: string): Option<Principal> {
    if DriverAccepts(name) && DriverAccepts(password) then Authenticate(cs, name, password) else None
  }

  /** A login attempt on the raw form text: both fields are stripped before any matching. */
  function LoginOutcome(cs: seq<Colleague>, rawName: string, rawPassword: string): Option<Principal> {
    Attempt(cs, Trim(rawName), Trim(rawPassword))
  }

  /** The session after a login attempt: unchanged on failure, the principal's three keys on success. */
  function SignIn(s: Session, p: Option<Principal>): (r: Session)
    ensures p.None? ==> r == s
    ensures p.Some? ==> SignedIn(r) && (AdminSignedIn(r) <==> p.value.isAdmin)
                        && r.userId == Some(p.value.colleagueId) && r.userName == Some(p.value.name)
  {
    match p
    case None => s
    case Some(who) => Session(Some(who.colleagueId), Some(who.name), Some(who.isAdmin))
  }

  /** The POST branch of `login`. */
  method Login(store: Store, session: Session, form: Form) returns (next: Session)
    ensures next == SignIn(session, LoginOutcome(store.colleagues, FieldOr(form, "name", ""), FieldOr(form, "password", "")))
  {
    var name := Trim(FieldOr(form, "name", ""));
    var password := Trim(FieldOr(form, "password", ""));
    if !DriverAccepts(name) || !DriverAccepts(password) {
      return session;
    }
    var adminUser := AdminByCredentials(store.colleagues, name, password);
    if adminUser.Some? {
      return Session(Some(adminUser.value.colleagueId), Some(adminUser.value.name), Some(true));
    }
    var colleagues := AllColleagues(store.colleagues);
    var user := ScanFirst(colleagues, NonAdminNamed(name));
    if user.Some? {
      var c := colleagues[user.value];
      next := Session(Some(c.colleagueId), Some(c.name), Some(false));
    } else {
      next := session;
    }
  }

  lemma ListingMembers(cs: seq<Colleague>, c: Colleague)
    ensures c in AllColleagues(cs) <==> c in cs
  {
    Ordering.SortByMembers(cs, ByName, c);
  }

  /**
   * An admin principal results iff some admin colleague has exactly that name
   * and that password, and it is that colleague's id and name.
   */
  lemma AuthenticateAdmin(cs: seq<Colleague>, name: string, password: string)
    ensures var r := Authenticate(cs, name, password);
      (r.Some? && r.value.isAdmin) <==> exists c :: c in cs && AdminWith(c, name, password)
    ensures var r := Authenticate(cs, name, password);
      r.Some? && r.value.isAdmin ==>
        exists c :: c in cs && AdminWith(c, name, password) && r.value == Principal(c.colleagueId, c.name, true)
  {
  }

  /**
   * A non-admin principal results iff no admin matches the credentials and some
   * colleague whose admin flag is false has that name; it is such a colleague.
   */
  lemma AuthenticateUser(cs: seq<Colleague>, name: string, password: string)
    ensures var r := Authenticate(cs, name, password);
      (r.Some? && !r.value.isAdmin) <==>
        (forall c :: c in cs ==> !AdminWith(c, name, password))
        && exists c :: c in cs && c.name == name && !c.isAdmin
    ensures var r := Authenticate(cs, name, password);
      r.Some? && !r.value.isAdmin ==>
        exists c :: c in cs && c.name == name && !c.isAdmin && r.value == Principal(c.colleagueId, c.name, false)
  {
    var listing := AllColleagues(cs);
    var i := FirstWhere(listing, NonAdminNamed(name));
    if i.Some? {
      ListingMembers(cs, listing[i.value]);
    }
    if exists c :: c in cs && c.name == name && !c.isAdmin {
      var c :| c in cs && c.name == name && !c.isAdmin;
      ListingMembers(cs, c);
      var k :| 0 <= k < |listing| && listing[k] == c;
      assert NonAdminNamed(name)(listing[k]);
    }
  }

  /** Once the driver has taken both fields, the password plays no part in a non-admin login. */
  lemma UserLoginIgnoresPassword(cs: seq<Colleague>, name: string, p1: string, p2: string)
    requires forall c :: c in cs ==> !AdminWith(c, name, p1) && !AdminWith(c, name, p2)
    ensures Authenticate(cs, name, p1) == Authenticate(cs, name, p2)
  {
  }

  /** A name or password holding U+0000 signs nobody in, whatever the tables hold. */
  lemma LoginRefusesNul(cs: seq<Colleague>, rawName: string, rawPassword: string)
    ensures !DriverAccepts(rawName) || !DriverAccepts(rawPassword) ==> LoginOutcome(cs, rawName, rawPassword).None?
  {
    TrimKeeps(rawName, '\0');
    TrimKeeps(rawPassword, '\0');
  }

  /** Whitespace around either field never changes who signs in. */
  lemma LoginIgnoresSurroundingSpace(cs: seq<Colleague>, rawName: string, rawPassword: string)
    ensures LoginOutcome(cs, rawName, rawPassword) == LoginOutcome(cs, Trim(rawName), Trim(rawPassword))
  {
    TrimIdempotent(rawName);
    TrimIdempotent(rawPassword);
  }

  // ---------------------------------------------------------------------------
  // Logout

  /** `logout`: `session.clear()`; both guards refuse afterwards. */
  function Logout(s: Session): (r: Session)
    ensures r.userId.None? && r.userName.None? && r.isAdmin.None?
    ensures !SignedIn(r) && !AdminSignedIn(r)
  {
    NoSession
  }

  // ---------------------------------------------------------------------------
  // Order placement

  /** The two inserts an accepted order makes: who, which sandwich, how many. */
  datatype Placement = Placement(colleagueId: int, sandwichId: int, quantity: int)

  /** The colleague an order is for: the form's choice for an admin, the session's own name otherwise. */
  function TargetName(s: Session, form: Form): Option<string> {
    if AdminFlag(s) then Field(form, "colleague_name") else s.userName
  }

  /** `int(quantity_str)`, with 1 when it raises `ValueError`. */
  function ParseQuantity(text: string): int {
    match ParseInt(text)
    case Some(n) => n
    case None => 1
  }

  function ColleagueNamed(name: Option<string>): Colleague -> bool {
    (c: Colleague) => Some(c.name) == name
  }

  function SandwichNamed(name: Option<string>): Sandwich -> bool {
    (s: Sandwich) => Some(s.sandwichName) == name
  }

  /** The id of the first colleague in the name-ordered listing with that name. */
  function ResolveColleague(cs: seq<Colleague>, name: Option<string>): Option<int> {
    var listing := AllColleagues(cs);
    match FirstWhere(listing, ColleagueNamed(name))
    case Some(i) => Some(listing[i].colleagueId)
    case None => None
  }

  /** The id of the first available sandwich in the name-ordered listing with that name. */
  function ResolveSandwich(ss: seq<Sandwich>, name: Option<string>): Option<int> {
    var listing := AvailableSandwiches(ss);
    match FirstWhere(listing, SandwichNamed(name))
    case Some(i) => Some(listing[i].sandwichId)
    case None => None
  }

  /** A Python id is truthy when it is not `None` and not zero. */
  predicate Truthy(id: Option<int>) {
    id.Some? && id.value != 0
  }

  /**
   * The decision of an order POST: resolve the target colleague and the chosen
   * sandwich by name; place the order only when both ids are truthy.
   */
  function PlanOrder(cs: seq<Colleague>, ss: seq<Sandwich>, s: Session, form: Form): Option<Placement> {
    var colleagueId := ResolveColleague(cs, TargetName(s, form));
    var sandwichId := ResolveSandwich(ss, Field(form, "sandwich_name"));
    if Truthy(colleagueId) && Truthy(sandwichId) then
      Some(Placement(colleagueId.value, sandwichId.value, ParseQuantity(FieldOr(form, "quantity", "1"))))
    else None
  }

  /** A colleague name resolves iff some colleague has it, and to that colleague's id. */
  lemma ResolveColleagueFinds(cs: seq<Colleague>, name: Option<string>)
    ensures ResolveColleague(cs, name).Some? <==> exists c :: c in cs && Some(c.name) == name
    ensures ResolveColleague(cs, name).Some? ==>
              exists c :: c in cs && Some(c.name) == name && c.colleagueId == ResolveColleague(cs, name).value
  {
    var listing := AllColleagues(cs);
    var i := FirstWhere(listing, ColleagueNamed(name));
    if i.Some? {
      ListingMembers(cs, listing[i.value]);
    }
    if exists c :: c in cs && Some(c.name) == name {
      var c :| c in cs && Some(c.name) == name;
      ListingMembers(cs, c);
      var k :| 0 <= k < |listing| && listing[k] == c;
      assert ColleagueNamed(name)(listing[k]);
    }
  }

  /** A sandwich name resolves iff some available sandwich has it, and to that sandwich's id. */
  lemma ResolveSandwichFinds(ss: seq<Sandwich>, name: Option<string>)
    ensures ResolveSandwich(ss, name).Some? <==> exists w :: w in ss && w.isAvailable && Some(w.sandwichName) == name
    ensures ResolveSandwich(ss, name).Some? ==>
              exists w :: w in ss && w.isAvailable && Some(w.sandwichName) == name
                          && w.sandwichId == ResolveSandwich(ss, name).value
  {
    var listing := AvailableSandwiches(ss);
    var i := FirstWhere(listing, SandwichNamed(name));
    if i.Some? {
      AvailableSandwichesListing(ss, listing[i.value]);
    }
    if exists w :: w in ss && w.isAvailable && Some(w.sandwichName) == name {
      var w :| w in ss && w.isAvailable && Some(w.sandwichName) == name;
      AvailableSandwichesListing(ss, w);
      var k :| 0 <= k < |listing| && listing[k] == w;
      assert SandwichNamed(name)(listing[k]);
    }
  }

  /**
   * With positive ids, an order is placed iff a colleague has the target name
   * and an available sandwich has the chosen name; the placement carries their
   * ids and the parsed quantity.
   */
  lemma PlanOrderResolves(cs: seq<Colleague>, ss: seq<Sandwich>, s: Session, form: Form)
    requires forall c :: c in cs ==> c.colleagueId > 0
    requires forall w :: w in ss ==> w.sandwichId > 0
    ensures PlanOrder(cs, ss, s, form).Some? <==>
              (exists c :: c in cs && Some(c.name) == TargetName(s, form))
              && (exists w :: w in ss && w.isAvailable && Some(w.sandwichName) == Field(form, "sandwich_name"))
    ensures PlanOrder(cs, ss, s, form).Some? ==>
              var p := PlanOrder(cs, ss, s, form).value;
              && (exists c :: c in cs && Some(c.name) == TargetName(s, form) && c.colleagueId == p.colleagueId)
              && (exists w :: w in ss && w.isAvailable && Some(w.sandwichName) == Field(form, "sandwich_name")
                               && w.sandwichId == p.sandwichId)
              && p.quantity == ParseQuantity(FieldOr(form, "quantity", "1"))
  {
    ResolveColleagueFinds(cs, TargetName(s, form));
    ResolveSandwichFinds(ss, Field(form, "sandwich_name"));
  }

  /** A colleague who is not an admin cannot order for anyone else: the submitted name is ignored. */
  lemma NonAdminOrdersForSelf(cs: seq<Colleague>, ss: seq<Sandwich>, s: Session, form: Form, other: string)
    requires !AdminFlag(s)
    ensures PlanOrder(cs, ss, s, form["colleague_name" := other]) == PlanOrder(cs, ss, s, form)
  {
    var form' := form["colleague_name" := other];
    assert Field(form', "sandwich_name") == Field(form, "sandwich_name");
    assert Field(form', "quantity") == Field(form, "quantity");
  }

  /**
   * Any integer the quantity field spells within the digit limit is used as it
   * is, zero and negatives included; a longer rendering, text that does not
   * parse (a leading U+001C..U+001F separator among them) and a missing field
   * give 1.
   */
  lemma QuantityAsGiven(n: int, text: string, c: char)
    ensures |ShowNat(Magnitude(n))| <= MaxStrDigits ==> ParseQuantity(ShowInt(n)) == n
    ensures |ShowNat(Magnitude(n))| > MaxStrDigits ==> ParseQuantity(ShowInt(n)) == 1
    ensures ParseInt(text).None? ==> ParseQuantity(text) == 1
    ensures '\U{1C}' <= c <= '\U{1F}' ==> ParseQuantity([c] + text) == 1
    ensures ParseQuantity(FieldOr(map[], "quantity", "1")) == 1
  {
    ParseShowInt(n);
    OneParses();
    if '\U{1C}' <= c <= '\U{1F}' {
      SeparatorStopsInt(c, text);
    }
  }

  /** The quantity field's default text reads as 1. */
  lemma OneParses()
    ensures ParseInt("1") == Some(1)
  {
    var one := ShowNat(1);
    assert |one| == 1 && one[0] == '1';
    assert one == "1";
    ParseShowInt(1);
  }

  /**
   * The resolution part of the order POST: the target name, the quantity with
   * its fallback, and the two linear scans over the freshly fetched listings.
   */
  method ResolveOrder(store: Store, session: Session, form: Form) returns (plan: Option<Placement>)
    ensures plan == PlanOrder(store.colleagues, store.sandwiches, session, form)
  {
    var colleagues := AllColleagues(store.colleagues);
    var sandwiches := AvailableSandwiches(store.sandwiches);

    var selectedName: Option<string>;
    if AdminFlag(session) {
      selectedName := Field(form, "colleague_name");
    } else {
      selectedName := session.userName;
    }
    var selectedSandwich := Field(form, "sandwich_name");
    var quantity: int;
    match ParseInt(FieldOr(form, "quantity", "1")) {
      case Some(n) => quantity := n;
      case None => quantity := 1;
    }

    var ci := ScanFirst(colleagues, ColleagueNamed(selectedName));
    var colleagueId := if ci.Some? then Some(colleagues[ci.value].colleagueId) else None;
    var si := ScanFirst(sandwiches, SandwichNamed(selectedSandwich));
    var sandwichId := if si.Some? then Some(sandwiches[si.value].sandwichId) else None;

    if Truthy(colleagueId) && Truthy(sandwichId) {
      plan := Some(Placement(colleagueId.value, sandwichId.value, quantity));
    } else {
      plan := None;
    }
  }

  /** What the order POST did. */
  datatype OrderOutcome = OrderNotSignedIn | Added(orderId: int) | InvalidSelection

  /**
   * The POST branch of `order_page` with its guard: without a user id nothing
   * happens; otherwise exactly one order and one order item are inserted when
   * both names resolve, and nothing at all when either does not.
   */
  method PlaceOrder(store: Store, session: Session, form: Form) returns (outcome: OrderOutcome)
    requires store.Valid()
    modifies store
    ensures store.Valid()
    ensures !SignedIn(session) ==> outcome == OrderNotSignedIn && unchanged(store)
    ensures store.colleagues == old(store.colleagues) && store.sandwiches == old(store.sandwiches)
    ensures store.nextColleagueId == old(store.nextColleagueId) && store.nextSandwichId == old(store.nextSandwichId)
    ensures SignedIn(session) ==>
      match PlanOrder(old(store.colleagues), old(store.sandwiches), session, form)
      case Some(p) =>
        && outcome == Added(old(store.nextOrderId))
        && store.nextOrderId == old(store.nextOrderId) + 1
        && store.orders == old(store.orders) + [Order(old(store.nextOrderId), p.colleagueId)]
        && store.orderItems == old(store.orderItems) + [OrderItem(old(store.nextOrderId), p.sandwichId, p.quantity)]
      case None =>
        outcome == InvalidSelection && unchanged(store)
  {
    if !SignedIn(session) {
      return OrderNotSignedIn;
    }
    var plan := ResolveOrder(store, session, form);
    if plan.Some? {
      var p := plan.value;
      PlanOrderInTables(store.colleagues, store.sandwiches, session, form);
      var orderId := store.CreateOrder(p.colleagueId);
      var added := store.AddItem(orderId.value, p.sandwichId, p.quantity);
      outcome := Added(orderId.value);
    } else {
      outcome := InvalidSelection;
    }
  }

  /** A placement only ever names a colleague and a sandwich that are in the tables. */
  lemma PlanOrderInTables(cs: seq<Colleague>, ss: seq<Sandwich>, s: Session, form: Form)
    ensures PlanOrder(cs, ss, s, form).Some? ==>
              && PlanOrder(cs, ss, s, form).value.colleagueId in ColleagueIds(cs)
              && PlanOrder(cs, ss, s, form).value.sandwichId in SandwichIds(ss)
  {
    ResolveColleagueFinds(cs, TargetName(s, form));
    ResolveSandwichFinds(ss, Field(form, "sandwich_name"));
  }

  // ---------------------------------------------------------------------------
  // Admin actions

  /** Why an admin action was turned away. */
  datatype Rejection = NameAndPasswordRequired | NameAndPriceRequired | PriceNotANumber

  /** What an admin POST asks the store to do. */
  datatype AdminCommand =
    | AddColleagueCommand(name: string, isAdmin: bool, password: string)
    | AddSandwichCommand(sandwichName: string, price: int)
    | ClearCartCommand
    | Rejected(reason: Rejection)
    | NoCommand

  /** The "add_colleague" branch, on the stripped name and password. */
  function ColleagueCommand(name: string, password: string, isAdmin: bool): AdminCommand {
    if name != "" && password != "" then AddColleagueCommand(name, isAdmin, password)
    else Rejected(NameAndPasswordRequired)
  }

  /** The "add_sandwich" branch, on the stripped name and price text. */
  function SandwichCommand(name: string, priceText: string, parsePrice: string -> Option<int>): AdminCommand {
    if name != "" && priceText != "" then
      match parsePrice(priceText)
      case Some(price) => AddSandwichCommand(name, price)
      case None => Rejected(PriceNotANumber)
    else Rejected(NameAndPriceRequired)
  }

  /**
   * The dispatch of `admin_page` on the `action` field. `parsePrice` stands for
   * `float(price_str)`, giving a price in cents or `None` where Python raises `ValueError`.
   */
  function DecideAdmin(form: Form, parsePrice: string -> Option<int>): AdminCommand {
    var action := Field(form, "action");
    if action == Some("add_colleague") then
      ColleagueCommand(Trim(FieldOr(form, "colleague_name", "")), Trim(FieldOr(form, "colleague_password", "")),
                       Field(form, "colleague_is_admin") == Some("on"))
    else if action == Some("clear_cart") then ClearCartCommand
    else if action == Some("add_sandwich") then
      SandwichCommand(Trim(FieldOr(form, "sandwich_name", "")), Trim(FieldOr(form, "sandwich_price", "")), parsePrice)
    else NoCommand
  }

  /**
   * A colleague is added only on the "add_colleague" action with a name and a
   * password that are non-empty once stripped; the stored values are the
   * stripped ones, and the admin flag is set only by the value "on".
   */
  lemma AddColleagueValidated(form: Form, parsePrice: string -> Option<int>)
    ensures DecideAdmin(form, parsePrice).AddColleagueCommand? <==>
              && Field(form, "action") == Some("add_colleague")
              && Trim(FieldOr(form, "colleague_name", "")) != ""
              && Trim(FieldOr(form, "colleague_password", "")) != ""
    ensures var cmd := DecideAdmin(form, parsePrice);
      cmd.AddColleagueCommand? ==>
        && cmd.name != "" && Trim(cmd.name) == cmd.name
        && cmd.password != "" && Trim(cmd.password) == cmd.password
        && (cmd.isAdmin <==> Field(form, "colleague_is_admin") == Some("on"))
  {
    if Field(form, "action") == Some("add_colleague") {
      ColleagueDispatch(form, parsePrice);
      TrimIdempotent(FieldOr(form, "colleague_name", ""));
      TrimIdempotent(FieldOr(form, "colleague_password", ""));
    } else {
      NoColleagueDispatch(form, parsePrice);
    }
  }

  /** The "add_colleague" action reaches the colleague branch with both fields stripped. */
  lemma ColleagueDispatch(form: Form, parsePrice: string -> Option<int>)
    requires Field(form, "action") == Some("add_colleague")
    ensures DecideAdmin(form, parsePrice) ==
              ColleagueCommand(Trim(FieldOr(form, "colleague_name", "")), Trim(FieldOr(form, "colleague_password", "")),
                               Field(form, "colleague_is_admin") == Some("on"))
  {
  }

  /** No other action adds a colleague. */
  lemma NoColleagueDispatch(form: Form, parsePrice: string -> Option<int>)
    requires Field(form, "action") != Some("add_colleague")
    ensures !DecideAdmin(form, parsePrice).AddColleagueCommand?
  {
  }

  /**
   * A sandwich is added only on the "add_sandwich" action with a non-empty
   * stripped name and a stripped price text that parses; its price is the parsed one.
   */
  lemma AddSandwichValidated(form: Form, parsePrice: string -> Option<int>)
    ensures var priceText := Trim(FieldOr(form, "sandwich_price", ""));
      DecideAdmin(form, parsePrice).AddSandwichCommand? <==>
        && Field(form, "action") == Some("add_sandwich")
        && Trim(FieldOr(form, "sandwich_name", "")) != ""
        && priceText != ""
        && parsePrice(priceText).Some?
    ensures var cmd := DecideAdmin(form, parsePrice);
      cmd.AddSandwichCommand? ==>
        && cmd.sandwichName != "" && Trim(cmd.sandwichName) == cmd.sandwichName
        && Some(cmd.price) == parsePrice(Trim(FieldOr(form, "sandwich_price", "")))
  {
    if Field(form, "action") == Some("add_sandwich") {
      SandwichDispatch(form, parsePrice);
      TrimIdempotent(FieldOr(form, "sandwich_name", ""));
    } else {
      NoSandwichDispatch(form, parsePrice);
    }
  }

  /** The "add_sandwich" action reaches the sandwich branch with both fields stripped. */
  lemma SandwichDispatch(form: Form, parsePrice: string -> Option<int>)
    requires Field(form, "action") == Some("add_sandwich")
    ensures DecideAdmin(form, parsePrice) ==
              SandwichCommand(Trim(FieldOr(form, "sandwich_name", "")), Trim(FieldOr(form, "sandwich_price", "")), parsePrice)
  {
    assert "add_sandwich"[4] != "add_colleague"[4] && "add_sandwich"[0] != "clear_cart"[0];
  }

  /** No other action adds a sandwich. */
  lemma NoSandwichDispatch(form: Form, parsePrice: string -> Option<int>)
    requires Field(form, "action") != Some("add_sandwich")
    ensures !DecideAdmin(form, parsePrice).AddSandwichCommand?
  {
  }

  /** What the admin POST did. */
  datatype AdminOutcome =
    | AdminNotSignedIn
    | Applied(command: AdminCommand)
    | Refused(reason: Rejection)
    | NoAction
    | StorageRefused(command: AdminCommand)

  /**
   * The POST branch of `admin_page` with its guard. Only an admin session gets
   * past the guard; the command then runs against the store, and everything
   * other than an accepted insert or a clear leaves the store as it was. A
   * sandwich name the driver refuses raises `ValueError` inside the `try`, so
   * it ends in the "Price must be a number." branch; a colleague the driver
   * refuses, and any insert the engine refuses, fails the request.
   */
  method AdminPage(store: Store, session: Session, form: Form, parsePrice: string -> Option<int>)
    returns (outcome: AdminOutcome)
    requires store.Valid()
    modifies store
    ensures store.Valid()
    ensures !AdminSignedIn(session) ==> outcome == AdminNotSignedIn && unchanged(store)
    ensures AdminSignedIn(session) ==>
      match DecideAdmin(form, parsePrice)
      case AddColleagueCommand(name, isAdmin, password) =>
        var sent := DriverAccepts(name) && DriverAccepts(password);
        var ok := sent && name !in ColleagueNames(old(store.colleagues));
        && outcome == (if ok then Applied(DecideAdmin(form, parsePrice)) else StorageRefused(DecideAdmin(form, parsePrice)))
        && store.colleagues == (if ok then old(store.colleagues) + [Colleague(old(store.nextColleagueId), name, isAdmin, Some(password))]
                                else old(store.colleagues))
        && store.nextColleagueId == old(store.nextColleagueId) + (if sent then 1 else 0)
        && store.sandwiches == old(store.sandwiches) && store.orders == old(store.orders)
        && store.orderItems == old(store.orderItems)
        && store.nextSandwichId == old(store.nextSandwichId) && store.nextOrderId == old(store.nextOrderId)
      case AddSandwichCommand(name, price) =>
        if !DriverAccepts(name) then outcome == Refused(PriceNotANumber) && unchanged(store)
        else
          var ok := name !in SandwichNames(old(store.sandwiches));
          && outcome == (if ok then Applied(DecideAdmin(form, parsePrice)) else StorageRefused(DecideAdmin(form, parsePrice)))
          && store.sandwiches == (if ok then old(store.sandwiches) + [Sandwich(old(store.nextSandwichId), name, price, true)]
                                  else old(store.sandwiches))
          && store.nextSandwichId == old(store.nextSandwichId) + 1
          && store.colleagues == old(store.colleagues) && store.orders == old(store.orders)
          && store.orderItems == old(store.orderItems)
          && store.nextColleagueId == old(store.nextColleagueId) && store.nextOrderId == old(store.nextOrderId)
      case ClearCartCommand =>
        && outcome == Applied(ClearCartCommand)
        && store.orders == [] && store.orderItems == []
        && store.colleagues == old(store.colleagues) && store.sandwiches == old(store.sandwiches)
        && store.nextColleagueId == old(store.nextColleagueId) && store.nextSandwichId == old(store.nextSandwichId)
        && store.nextOrderId == old(store.nextOrderId)
      case Rejected(reason) =>
        outcome == Refused(reason) && unchanged(store)
      case NoCommand =>
        outcome == NoAction && unchanged(store)
  {
    if !AdminSignedIn(session) {
      return AdminNotSignedIn;
    }
    var command := DecideAdmin(form, parsePrice);
    match command {
      case AddColleagueCommand(name, isAdmin, password) =>
        var ok := store.AddColleague(name, isAdmin, Some(password));
        outcome := if ok then Applied(command) else StorageRefused(command);
      case AddSandwichCommand(name, price) =>
        if !DriverAccepts(name) {
          outcome := Refused(PriceNotANumber);
        } else {
          var ok := store.AddSandwich(name, price);
          outcome := if ok then Applied(command) else StorageRefused(command);
        }
      case ClearCartCommand =>
        store.ClearAll();
        outcome := Applied(command);
      case Rejected(reason) =>
        outcome := Refused(reason);
      case NoCommand =>
        outcome := NoAction;
    }
  }
}
