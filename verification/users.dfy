/** The User record and its fluent builder. The builder's random defaults
    are inputs here: a `UserDraws` holds what the data generator supplied. */
module Users {
  import opened Outcomes
  import Text
  import Draws
  import Decimal

  datatype User = User(
    email: string,
    password: string,
    firstName: string,
    lastName: string,
    phone: string,
    address: string,
    city: string,
    zipCode: string,
    country: string,
    role: string,
    isActive: bool)

  /** `User.full_name`: first and last name joined by one space, with the
      whitespace at both ends of the result stripped. */
  function FullName(u: User): (r: string)
    ensures Text.Trimmed(r)
    ensures |r| <= |u.firstName| + 1 + |u.lastName|
    ensures var s := u.firstName + " " + u.lastName;
      exists i, j :: 0 <= i <= j <= |s| && r == s[i..j] && Text.AllSpace(s[..i]) && Text.AllSpace(s[j..])
  {
    Text.Strip(u.firstName + " " + u.lastName)
  }

  /** Two names without surrounding whitespace are joined by exactly one
      space; "John" and "Doe" give "John Doe". */
  lemma FullNameJoinsNames(u: User)
    requires u.firstName != [] && Text.Trimmed(u.firstName)
    requires u.lastName != [] && Text.Trimmed(u.lastName)
    ensures FullName(u) == u.firstName + " " + u.lastName
  {
    var s := u.firstName + " " + u.lastName;
    assert s[0] == u.firstName[0] && s[|s| - 1] == u.lastName[|u.lastName| - 1];
    Text.TrimmedIsFixed(s);
  }

  lemma FullNameOfJohnDoe(u: User)
    requires u.firstName == "John" && u.lastName == "Doe"
    ensures FullName(u) == "John Doe"
  {
    var joined := u.firstName + " " + u.lastName;
    assert joined == "John Doe";
    assert Text.Trimmed(joined) by {
      assert !Text.IsSpace('J') && !Text.IsSpace('e');
    }
    Text.TrimmedIsFixed(joined);
  }

  /** A blank last name leaves the stripped first name, with no stray space. */
  lemma FullNameOfBlankLastName(u: User)
    requires Text.AllSpace(u.lastName)
    ensures FullName(u) == Text.Strip(u.firstName)
  {
    assert u.firstName + " " + u.lastName == u.firstName + (" " + u.lastName);
    Text.StripDropsSpaceSuffix(u.firstName, " " + u.lastName);
  }

  /** A blank first name leaves the stripped last name, with no stray space. */
  lemma FullNameOfBlankFirstName(u: User)
    requires Text.AllSpace(u.firstName)
    ensures FullName(u) == Text.Strip(u.lastName)
  {
    Text.StripDropsSpacePrefix(u.firstName + " ", u.lastName);
  }

  /** The full name is empty exactly when both names are blank. */
  lemma FullNameEmptyIffBlankNames(u: User)
    ensures FullName(u) == [] <==> Text.AllSpace(u.firstName) && Text.AllSpace(u.lastName)
  {
    Text.StripEmptyIffBlank(u.firstName + " " + u.lastName);
    Text.AllSpaceConcat(u.firstName + " ", u.lastName);
    Text.AllSpaceConcat(u.firstName, " ");
  }

  // ---------------------------------------------------------------------
  // The builder

  /** What the data generator hands a fresh builder: a random email,
      password, first and last name, phone, address, city and zip code. */
  datatype UserDraws = UserDraws(
    email: string,
    password: string,
    firstName: string,
    lastName: string,
    phone: string,
    address: string,
    city: string,
    zipCode: string)

  /** The builder's private fields, one per User field. */
  datatype UserBuilder = UserBuilder(
    email: string,
    password: string,
    firstName: string,
    lastName: string,
    phone: string,
    address: string,
    city: string,
    zipCode: string,
    country: string,
    role: string,
    isActive: bool)

  /** The eleven fields of a user, to speak of "every other field". */
  datatype UserField = Email | Password | FirstName | LastName | Phone | Address | City | ZipCode | Country | Role | IsActive

  datatype FieldValue = Str(text: string) | Flag(flag: bool)

  function Field(u: User, f: UserField): FieldValue {
    match f
    case Email => Str(u.email)
    case Password => Str(u.password)
    case FirstName => Str(u.firstName)
    case LastName => Str(u.lastName)
    case Phone => Str(u.phone)
    case Address => Str(u.address)
    case City => Str(u.city)
    case ZipCode => Str(u.zipCode)
    case Country => Str(u.country)
    case Role => Str(u.role)
    case IsActive => Flag(u.isActive)
  }

  function Pending(b: UserBuilder, f: UserField): FieldValue {
    match f
    case Email => Str(b.email)
    case Password => Str(b.password)
    case FirstName => Str(b.firstName)
    case LastName => Str(b.lastName)
    case Phone => Str(b.phone)
    case Address => Str(b.address)
    case City => Str(b.city)
    case ZipCode => Str(b.zipCode)
    case Country => Str(b.country)
    case Role => Str(b.role)
    case IsActive => Flag(b.isActive)
  }

  /** `b'` agrees with `b` on every field outside `changed`. */
  predicate SameExcept(b: UserBuilder, b': UserBuilder, changed: set<UserField>) {
    forall f :: f !in changed ==> Pending(b', f) == Pending(b, f)
  }

  /** `UserBuilder()`: the drawn values, country "USA", role "user", active. */
  function NewUserBuilder(d: UserDraws): (b: UserBuilder)
    ensures b.country == "USA" && b.role == "user" && b.isActive
    ensures Pending(b, Email) == Str(d.email) && Pending(b, Password) == Str(d.password)
    ensures Pending(b, FirstName) == Str(d.firstName) && Pending(b, LastName) == Str(d.lastName)
    ensures Pending(b, Phone) == Str(d.phone) && Pending(b, Address) == Str(d.address)
    ensures Pending(b, City) == Str(d.city) && Pending(b, ZipCode) == Str(d.zipCode)
  {
    UserBuilder(d.email, d.password, d.firstName, d.lastName, d.phone, d.address, d.city, d.zipCode,
                "USA", "user", true)
  }

  function WithEmail(b: UserBuilder, email: string): (r: UserBuilder)
    ensures Pending(r, Email) == Str(email) && SameExcept(b, r, {Email})
  {
    b.(email := email)
  }

  function WithPassword(b: UserBuilder, password: string): (r: UserBuilder)
    ensures Pending(r, Password) == Str(password) && SameExcept(b, r, {Password})
  {
    b.(password := password)
  }

  function WithName(b: UserBuilder, firstName: string, lastName: string): (r: UserBuilder)
    ensures Pending(r, FirstName) == Str(firstName) && Pending(r, LastName) == Str(lastName)
    ensures SameExcept(b, r, {FirstName, LastName})
  {
    b.(firstName := firstName, lastName := lastName)
  }

  function WithPhone(b: UserBuilder, phone: string): (r: UserBuilder)
    ensures Pending(r, Phone) == Str(phone) && SameExcept(b, r, {Phone})
  {
    b.(phone := phone)
  }

  /** `with_address`: address and country are always replaced; city and zip
      code only by a non-empty value, an empty one keeps the current value. */
  function WithAddress(b: UserBuilder, address: string, city: string, zipCode: string, country: string): (r: UserBuilder)
    ensures Pending(r, Address) == Str(address) && Pending(r, Country) == Str(country)
    ensures city != "" ==> Pending(r, City) == Str(city)
    ensures city == "" ==> Pending(r, City) == Pending(b, City)
    ensures zipCode != "" ==> Pending(r, ZipCode) == Str(zipCode)
    ensures zipCode == "" ==> Pending(r, ZipCode) == Pending(b, ZipCode)
    ensures SameExcept(b, r, {Address, City, ZipCode, Country})
  {
    var withCity := if city != "" then b.(city := city) else b;
    var withZip := if zipCode != "" then withCity.(zipCode := zipCode) else withCity;
    withZip.(address := address, country := country)
  }

  /** `with_address(address)` with its defaults: only the street changes,
      and the country goes back to "USA". */
  lemma WithAddressDefaults(b: UserBuilder, address: string)
    ensures WithAddress(b, address, "", "", "USA") == b.(address := address, country := "USA")
  {
  }

  function WithRole(b: UserBuilder, role: string): (r: UserBuilder)
    ensures Pending(r, Role) == Str(role) && SameExcept(b, r, {Role})
  {
    b.(role := role)
  }

  function AsAdmin(b: UserBuilder): (r: UserBuilder)
    ensures Pending(r, Role) == Str("admin") && SameExcept(b, r, {Role})
  {
    b.(role := "admin")
  }

  function AsGuest(b: UserBuilder): (r: UserBuilder)
    ensures Pending(r, Role) == Str("guest") && SameExcept(b, r, {Role})
  {
    b.(role := "guest")
  }

  /** The flag `active()` sets when called without one. */
  const DefaultActive: bool := true

  /** `active()` without an argument makes the user active. */
  lemma ActiveDefaultActivates(b: UserBuilder)
    ensures Build(Active(b, DefaultActive)).isActive
  {
    assert Field(Build(Active(b, DefaultActive)), IsActive) == Flag(true);
  }

  function Active(b: UserBuilder, isActive: bool): (r: UserBuilder)
    ensures Pending(r, IsActive) == Flag(isActive) && SameExcept(b, r, {IsActive})
  {
    b.(isActive := isActive)
  }

  /** `build`: a User whose every field is the builder's. */
  function Build(b: UserBuilder): (u: User)
    ensures forall f :: Field(u, f) == Pending(b, f)
  {
    User(b.email, b.password, b.firstName, b.lastName, b.phone, b.address, b.city, b.zipCode,
         b.country, b.role, b.isActive)
  }

  // ---------------------------------------------------------------------
  // Chains of setter calls

  /** One fluent setter call. */
  datatype UserStep =
    | SetEmail(email: string)
    | SetPassword(password: string)
    | SetName(firstName: string, lastName: string)
    | SetPhone(phone: string)
    | SetAddress(address: string, city: string, zipCode: string, country: string)
    | SetRole(role: string)
    | MakeAdmin
    | MakeGuest
    | SetActive(isActive: bool)

  function Apply(b: UserBuilder, s: UserStep): UserBuilder {
    match s
    case SetEmail(email) => WithEmail(b, email)
    case SetPassword(password) => WithPassword(b, password)
    case SetName(first, last) => WithName(b, first, last)
    case SetPhone(phone) => WithPhone(b, phone)
    case SetAddress(address, city, zipCode, country) => WithAddress(b, address, city, zipCode, country)
    case SetRole(role) => WithRole(b, role)
    case MakeAdmin => AsAdmin(b)
    case MakeGuest => AsGuest(b)
    case SetActive(isActive) => Active(b, isActive)
  }

  /** The calls of a chain, first call first. */
  function ApplyAll(b: UserBuilder, steps: seq<UserStep>): UserBuilder
    decreases |steps|
  {
    if steps == [] then b else Apply(ApplyAll(b, steps[..|steps| - 1]), steps[|steps| - 1])
  }

  /** What a setter call stores in field f, if anything: the table of which
      setter owns which field. */
  function Writes(s: UserStep, f: UserField): Option<FieldValue> {
    match (s, f)
    case (SetEmail(email), Email) => Some(Str(email))
    case (SetPassword(password), Password) => Some(Str(password))
    case (SetName(first, _), FirstName) => Some(Str(first))
    case (SetName(_, last), LastName) => Some(Str(last))
    case (SetPhone(phone), Phone) => Some(Str(phone))
    case (SetAddress(address, _, _, _), Address) => Some(Str(address))
    case (SetAddress(_, city, _, _), City) => if city != "" then Some(Str(city)) else None
    case (SetAddress(_, _, zipCode, _), ZipCode) => if zipCode != "" then Some(Str(zipCode)) else None
    case (SetAddress(_, _, _, country), Country) => Some(Str(country))
    case (SetRole(role), Role) => Some(Str(role))
    case (MakeAdmin, Role) => Some(Str("admin"))
    case (MakeGuest, Role) => Some(Str("guest"))
    case (SetActive(isActive), IsActive) => Some(Flag(isActive))
    case _ => None
  }

  /** The value field f ends with after a chain: the one the last call that
      writes f stores, or `initial` when no call writes it. */
  function LastWrite(steps: seq<UserStep>, f: UserField, initial: FieldValue): FieldValue
    decreases |steps|
  {
    if steps == [] then initial
    else match Writes(steps[|steps| - 1], f)
      case Some(v) => v
      case None => LastWrite(steps[..|steps| - 1], f, initial)
  }

  /** Each setter changes exactly the fields the ownership table gives it. */
  lemma ApplyFollowsWrites(b: UserBuilder, s: UserStep, f: UserField)
    ensures Pending(Apply(b, s), f) == match Writes(s, f) case Some(v) => v case None => Pending(b, f)
  {
  }

  /** The last call wins: after any chain of setter calls, each field holds
      what the last call writing it stored, or its value before the chain. */
  lemma {:induction false} ApplyAllLastWriteWins(b: UserBuilder, steps: seq<UserStep>, f: UserField)
    ensures Pending(ApplyAll(b, steps), f) == LastWrite(steps, f, Pending(b, f))
    decreases |steps|
  {
    if steps != [] {
      ApplyAllLastWriteWins(b, steps[..|steps| - 1], f);
      ApplyFollowsWrites(ApplyAll(b, steps[..|steps| - 1]), steps[|steps| - 1], f);
    }
  }

  /** A chain ending in `as_admin` builds an admin, whatever role calls came
      before. */
  lemma EndingAsAdminBuildsAdmin(b: UserBuilder, steps: seq<UserStep>)
    requires steps != [] && steps[|steps| - 1] == MakeAdmin
    ensures Build(ApplyAll(b, steps)).role == "admin"
  {
    ApplyAllLastWriteWins(b, steps, Role);
    assert Field(Build(ApplyAll(b, steps)), Role) == Str("admin");
  }

  // ---------------------------------------------------------------------
  // Convenience constructors

  /** `create_standard_user()`: every drawn value, country "USA", role
      "user", active. */
  function CreateStandardUser(d: UserDraws): (u: User)
    ensures u.role == "user" && u.isActive && u.country == "USA"
    ensures u.email == d.email && u.password == d.password && u.address == d.address
    ensures u.firstName == d.firstName && u.lastName == d.lastName && u.phone == d.phone
    ensures u.city == d.city && u.zipCode == d.zipCode
  {
    Build(NewUserBuilder(d))
  }

  /** A standard user's zip code, drawn as intended, is five digits. */
  lemma StandardZipIsNumeric(d: UserDraws)
    requires Draws.ZipDraw(d.zipCode)
    ensures |CreateStandardUser(d).zipCode| == 5 && Decimal.AllDigits(CreateStandardUser(d).zipCode)
  {
    Draws.ZipDrawIsNumeric(d.zipCode);
  }

  function CreateAdminUser(d: UserDraws): (u: User)
    ensures u.role == "admin" && u.isActive && u.country == "USA"
    ensures u == CreateStandardUser(d).(role := "admin")
  {
    Build(AsAdmin(NewUserBuilder(d)))
  }

  function CreateGuestUser(d: UserDraws): (u: User)
    ensures u.role == "guest" && u.isActive && u.country == "USA"
    ensures u == CreateStandardUser(d).(role := "guest")
  {
    Build(AsGuest(NewUserBuilder(d)))
  }
}
