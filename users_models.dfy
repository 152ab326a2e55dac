/** The custom user model: a user is identified by e-mail address, and the
    manager's `create_superuser` fills in the staff and superuser flags
    before it validates them. The table operations live in `Database.Db`. */
module Users {
  import opened Common
  import opened Text

  datatype User = User(
    email: string,
    firstName: string,
    lastName: string,
    isActive: bool,
    isStaff: bool,
    isSuperuser: bool
  )

  /** The `**extra_fields` dictionary, restricted to the three flag fields. */
  type ExtraFields = map<string, bool>

  const IS_STAFF := "is_staff"
  const IS_SUPERUSER := "is_superuser"
  const IS_ACTIVE := "is_active"

  /** `dict.get(key, default)`. */
  function Get(fields: ExtraFields, key: string, default: bool): bool {
    if key in fields then fields[key] else default
  }

  /** `dict.setdefault(key, default)`: a key already present keeps its value,
      an absent key is added with `default`, and no other key changes. */
  function SetDefault(fields: ExtraFields, key: string, default: bool): (r: ExtraFields)
    ensures r.Keys == fields.Keys + {key}
    ensures forall k :: k in fields ==> r[k] == fields[k]
    ensures key !in fields ==> r[key] == default
  {
    if key in fields then fields else fields[key := default]
  }

  /** The row `self.model(email=..., first_name=..., last_name=..., **extra_fields)`
      builds: a flag not given takes the model field's default (active yes,
      staff no, superuser no). */
  function NewUser(email: string, firstName: string, lastName: string, extra: ExtraFields): (u: User)
    ensures u.email == email && u.firstName == firstName && u.lastName == lastName
    ensures u.isActive == Get(extra, IS_ACTIVE, true)
    ensures u.isStaff == Get(extra, IS_STAFF, false)
    ensures u.isSuperuser == Get(extra, IS_SUPERUSER, false)
  {
    User(email, firstName, lastName,
         Get(extra, IS_ACTIVE, true), Get(extra, IS_STAFF, false), Get(extra, IS_SUPERUSER, false))
  }

  /** The e-mail field is unique: no two rows share an address. */
  predicate UniqueEmails(users: map<nat, User>) {
    forall a, b {:trigger users[a].email, users[b].email} :: a in users && b in users && users[a].email == users[b].email ==> a == b
  }

  function EmailsOf(users: map<nat, User>): set<string> {
    set k | k in users :: users[k].email
  }

  /** `User.__str__`: the e-mail address. */
  function UserStr(u: User): string {
    u.email
  }

  /** Under the unique e-mail constraint, a user's string form identifies
      the user. */
  lemma UserStrIdentifies(users: map<nat, User>, a: nat, b: nat)
    requires UniqueEmails(users) && a in users && b in users
    requires UserStr(users[a]) == UserStr(users[b])
    ensures a == b
  {
  }

  /** `User.get_full_name`: first and last name joined by a space, with the
      surrounding whitespace stripped. */
  function FullName(u: User): (r: string)
    ensures r != [] ==> !IsSpace(r[0]) && !IsSpace(r[|r| - 1])
    ensures |r| <= |u.firstName| + 1 + |u.lastName|
  {
    Strip(u.firstName + " " + u.lastName)
  }

  /** `User.get_short_name`: the first name, unchanged; when it has no
      surrounding whitespace it is where the full name begins. */
  function ShortName(u: User): (r: string)
    ensures r == u.firstName
    ensures r != [] && !IsSpace(r[0]) && !IsSpace(r[|r| - 1]) ==>
      |r| <= |FullName(u)| && FullName(u)[..|r|] == r
  {
    if u.firstName != [] && !IsSpace(u.firstName[0]) && !IsSpace(u.firstName[|u.firstName| - 1]) then
      FirstNameStartsFullName(u);
      u.firstName
    else
      u.firstName
  }

  /** When the first name does not start with whitespace and the last name
      does not end with it, stripping changes nothing: the full name is the
      two names joined by one space. */
  lemma FullNameOfTrimmedNames(u: User)
    requires u.firstName != [] && !IsSpace(u.firstName[0])
    requires u.lastName != [] && !IsSpace(u.lastName[|u.lastName| - 1])
    ensures FullName(u) == u.firstName + " " + u.lastName
  {
    var s := u.firstName + " " + u.lastName;
    assert s[0] == u.firstName[0] && s[|s| - 1] == u.lastName[|u.lastName| - 1];
    StripUntrimmed(s);
  }

  /** With both names empty (or blank) the full name is empty. */
  lemma FullNameOfBlankNames(u: User)
    requires forall i :: 0 <= i < |u.firstName| ==> IsSpace(u.firstName[i])
    requires forall i :: 0 <= i < |u.lastName| ==> IsSpace(u.lastName[i])
    ensures FullName(u) == ""
  {
    var s := u.firstName + " " + u.lastName;
    forall i | 0 <= i < |s| ensures IsSpace(s[i]) {
      if i > |u.firstName| {
        assert s[i] == u.lastName[i - |u.firstName| - 1];
      }
    }
  }

  /** A first name without surrounding whitespace is where the full name
      begins. */
  lemma {:induction false} FirstNameStartsFullName(u: User)
    requires u.firstName != []
    requires !IsSpace(u.firstName[0]) && !IsSpace(u.firstName[|u.firstName| - 1])
    ensures |u.firstName| <= |FullName(u)|
    ensures FullName(u)[..|u.firstName|] == u.firstName
  {
    var f := u.firstName;
    var s := f + " " + u.lastName;
    assert s[0] == f[0] && s[|f| - 1] == f[|f| - 1];
    assert LeadingSpaces(s) == 0;
    var b := TrailingSpaces(s);
    assert !IsSpace(s[|f| - 1]);
    assert |s| - b >= |f|;
    assert Strip(s) == s[..|s| - b];
    assert s[..|s| - b][..|f|] == s[..|f|] == f;
  }
}
