/**
 * The custom `User` model: its role set and default role, the two derived
 * role properties, the field bounds and the uniqueness constraints, together
 * with the field validators a model serializer derives from them.
 */
module UsersModels {
  import opened Wrappers
  import opened Seqs

  type UserId = nat

  /** The three entries of `User.ROLES`. */
  datatype Role = PlainUser | Moderator | Admin

  /** The value stored in the `role` column for each choice. */
  function RoleName(r: Role): string
  {
    match r
    case PlainUser => "user"
    case Moderator => "moderator"
    case Admin => "admin"
  }

  /** The `choices` check applied to an incoming role string. */
  function ParseRole(s: string): (r: Option<Role>)
    ensures r.Some? ==> RoleName(r.value) == s
    ensures r.None? ==> forall x: Role :: RoleName(x) != s
  {
    if s == "user" then Some(PlainUser)
    else if s == "moderator" then Some(Moderator)
    else if s == "admin" then Some(Admin)
    else None
  }

  /** `settings.USER`, the default of the `role` field. */
  const DEFAULT_ROLE: Role := PlainUser

  const USERNAME_MAX_LENGTH := 150
  const EMAIL_MAX_LENGTH := 254
  const PERSON_NAME_MAX_LENGTH := 150

  /** A row of the user table (the inherited `AbstractUser` fields that matter here). */
  datatype User = User(
    id: UserId,
    username: string,
    email: string,
    firstName: string,
    lastName: string,
    bio: string,
    role: Role,
    isSuperuser: bool,
    isStaff: bool)

  /** The `is_moderator` property. */
  predicate IsModerator(u: User)
  {
    u.role == Moderator
  }

  /** The `is_admin` property: the admin role or the superuser flag. */
  predicate IsAdmin(u: User)
  {
    u.role == Admin || u.isSuperuser
  }

  /** A user created from a username and an email alone: every other field takes its default. */
  function NewUser(id: UserId, username: string, email: string): (u: User)
    ensures u.id == id && u.username == username && u.email == email
    ensures u.role == DEFAULT_ROLE && !IsAdmin(u) && !IsModerator(u) && !u.isStaff
  {
    User(id, username, email, "", "", "", DEFAULT_ROLE, false, false)
  }

  lemma SuperuserIsAdminUnderAnyRole(u: User)
    requires u.isSuperuser
    ensures IsAdmin(u)
    ensures IsAdmin(u.(role := PlainUser)) && IsAdmin(u.(role := Moderator))
  {
  }

  lemma RolesExclusive(u: User)
    ensures u.role == Moderator && !u.isSuperuser ==> !IsAdmin(u)
    ensures u.role == Admin ==> !IsModerator(u)
  {
  }

  /* ---------- Field validators ---------- */

  /** One character of the class `[\w.@+-]`, with `\w` taken over ASCII. */
  predicate UsernameChar(c: char)
  {
    ('a' <= c <= 'z') || ('A' <= c <= 'Z') || ('0' <= c <= '9')
    || c == '_' || c == '.' || c == '@' || c == '+' || c == '-'
  }

  /** `^[\w.@+-]+\Z`: one or more username characters. */
  predicate MatchesUsernamePattern(s: string)
  {
    |s| >= 1 && forall i :: 0 <= i < |s| ==> UsernameChar(s[i])
  }

  /** The username pattern together with `max_length=150`. */
  predicate ValidUsername(s: string)
  {
    MatchesUsernamePattern(s) && |s| <= USERNAME_MAX_LENGTH
  }

  /** A non-empty local part, an `@`, and a non-empty domain. */
  predicate EmailShaped(e: string)
  {
    exists i :: 0 < i < |e| - 1 && e[i] == '@'
  }

  /** An `EmailField(max_length=254)`. */
  predicate ValidEmail(e: string)
  {
    EmailShaped(e) && |e| <= EMAIL_MAX_LENGTH
  }

  /** What the username field lets through, and what it stops. */
  lemma UsernameFieldExamples()
    ensures ValidUsername("john.doe+test@mail-1_x")
    ensures !ValidUsername("") && !ValidUsername("john doe") && !ValidUsername("jo/hn")
    ensures forall s :: |s| > USERNAME_MAX_LENGTH ==> !ValidUsername(s)
  {
    assert !UsernameChar(' ') && "john doe"[4] == ' ';
    assert "jo/hn"[2] == '/';
  }

  /**
   * What the email field lets through, and what it stops, under the model's
   * approximation of the email validator (text on both sides of an `@`).
   */
  lemma EmailFieldExamples()
    ensures ValidEmail("a@b.com")
    ensures !ValidEmail("") && !ValidEmail("@b") && !ValidEmail("a@") && !ValidEmail("ab")
    ensures forall e :: |e| > EMAIL_MAX_LENGTH ==> !ValidEmail(e)
  {
    assert "a@b.com"[1] == '@';
    assert "ab"[0] != '@' && "ab"[1] != '@';
  }

  function LowerAscii(c: char): (d: char)
    ensures 'A' <= c <= 'Z' ==> d as int == c as int + 32
    ensures !('A' <= c <= 'Z') ==> d == c
  {
    if 'A' <= c <= 'Z' then (c as int + 32) as char else c
  }

  /**
   * `s.lower() == "me"`. No non-ASCII character lowers to `m` or `e`, and no
   * character lowers to two characters ending a two-letter "me", so lowering
   * ASCII letters decides the comparison exactly.
   */
  predicate IsMeIgnoringCase(s: string)
  {
    |s| == 2 && LowerAscii(s[0]) == 'm' && LowerAscii(s[1]) == 'e'
  }

  lemma MeSpellings(s: string)
    ensures IsMeIgnoringCase(s) <==> s in {"me", "Me", "mE", "ME"}
  {
    if IsMeIgnoringCase(s) {
      assert s == [s[0], s[1]];
      assert s[0] == 'm' || s[0] == 'M';
      assert s[1] == 'e' || s[1] == 'E';
    }
  }

  /* ---------- Table constraints ---------- */

  function UserPk(u: User): UserId { u.id }
  function UsernameOf(u: User): string { u.username }
  function EmailOf(u: User): string { u.email }
  function UsernameEmailPair(u: User): (string, string) { (u.username, u.email) }

  /**
   * The table constraints: distinct primary keys, `username` unique (inherited
   * from `AbstractUser`) and `email` unique.
   */
  predicate UserTableValid(users: seq<User>)
  {
    KeysDistinct(users, UserPk) && KeysDistinct(users, UsernameOf) && KeysDistinct(users, EmailOf)
  }

  /** The `unique_user` constraint on (username, email) follows from the unique email alone. */
  lemma UserTableKeepsPairsUnique(users: seq<User>)
    requires UserTableValid(users)
    ensures KeysDistinct(users, UsernameEmailPair)
  {
    forall i, j | 0 <= i < |users| && 0 <= j < |users| && i != j
      ensures UsernameEmailPair(users[i]) != UsernameEmailPair(users[j])
    {
      assert EmailOf(users[i]) != EmailOf(users[j]);
    }
  }

  /* ---------- Partial updates ---------- */

  /** The fields a partial update may carry; an absent field is left alone. */
  datatype UserPatch = UserPatch(
    username: Option<string>,
    email: Option<string>,
    firstName: Option<string>,
    lastName: Option<string>,
    bio: Option<string>,
    role: Option<string>)

  function Or<T>(o: Option<T>, otherwise: T): T
  {
    if o.Some? then o.value else otherwise
  }

  /**
   * The checks a model serializer derives from the User fields for a partial
   * update of the row `self`: the username validator and length, the email
   * validator and length, the name lengths, the role choices, and the two
   * unique fields (a unique check leaves the updated row itself out).
   */
  predicate ModelFieldsAccept(users: seq<User>, self: UserId, p: UserPatch)
  {
    && (p.username.Some? ==>
          && ValidUsername(p.username.value)
          && forall u :: u in users && u.id != self ==> u.username != p.username.value)
    && (p.email.Some? ==>
          && ValidEmail(p.email.value)
          && forall u :: u in users && u.id != self ==> u.email != p.email.value)
    && (p.firstName.Some? ==> |p.firstName.value| <= PERSON_NAME_MAX_LENGTH)
    && (p.lastName.Some? ==> |p.lastName.value| <= PERSON_NAME_MAX_LENGTH)
    && (p.role.Some? ==> ParseRole(p.role.value).Some?)
  }

  /** `serializer.save(role=...)` on a partial update: the given fields, and the role passed to save. */
  function ApplyPatch(u: User, p: UserPatch, role: Role): (v: User)
    ensures v.id == u.id && v.role == role
    ensures v.isSuperuser == u.isSuperuser && v.isStaff == u.isStaff
    ensures p.username.Some? ==> v.username == p.username.value
    ensures p.username.None? ==> v.username == u.username
    ensures p.email.Some? ==> v.email == p.email.value
    ensures p.email.None? ==> v.email == u.email
    ensures p.firstName.Some? ==> v.firstName == p.firstName.value
    ensures p.firstName.None? ==> v.firstName == u.firstName
    ensures p.lastName.Some? ==> v.lastName == p.lastName.value
    ensures p.lastName.None? ==> v.lastName == u.lastName
    ensures p.bio.Some? ==> v.bio == p.bio.value
    ensures p.bio.None? ==> v.bio == u.bio
  {
    u.(username := Or(p.username, u.username),
       email := Or(p.email, u.email),
       firstName := Or(p.firstName, u.firstName),
       lastName := Or(p.lastName, u.lastName),
       bio := Or(p.bio, u.bio),
       role := role)
  }
}
