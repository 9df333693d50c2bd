/**
 * The custom user model and its manager (UserManager and User in
 * core/models.py). The user table is a sequence of rows in primary-key
 * order; the unique index on `email` is what refuses a second row with the
 * same address.
 */
module Users {

  import opened Wrappers
  import opened AuthPrimitives

  /** The two exceptions the factory can end in. */
  datatype Error =
    | ValueError(message: string)      // raised by create_user itself
    | IntegrityError(column: string)   // raised by the database on save

  const MissingEmailMessage: string := "Users must have an email"

  /**
   * A user record. `pk` is the autoincrement primary key (from 1); a user
   * not saved yet has pk 0, where Django has None. `isSuperuser` comes from
   * PermissionsMixin, `password` from AbstractBaseUser.
   */
  datatype User = User(
    pk: nat,
    email: string,
    name: string,
    password: PasswordHash,
    isActive: bool,
    isStaff: bool,
    isSuperuser: bool)

  /** The `**extra_fields` create_user passes on: a field left None keeps its default. */
  datatype ExtraFields = ExtraFields(
    name: Option<string>,
    isActive: Option<bool>,
    isStaff: Option<bool>,
    isSuperuser: Option<bool>)

  const NoExtraFields: ExtraFields := ExtraFields(None, None, None, None)

  /** The pair a successful create returns: the new table and the user. */
  datatype Created = Created(table: seq<User>, user: User)

  /** Python's `not email`: both None and the empty string are false. */
  predicate MissingEmail(email: Option<string>): (missing: bool)
    ensures missing <==> email == None || email == Some("")
  {
    email.None? || email.value == ""
  }

  /**
   * `self.model(email=..., **extra_fields)`: an unsaved user with the field
   * defaults (name '', is_active True, is_staff False, is_superuser False)
   * wherever the extra fields say nothing.
   */
  function NewUser(email: string, extra: ExtraFields): (u: User)
    ensures u.pk == 0 && u.email == email && u.password == Unusable
    ensures extra == NoExtraFields ==> u.name == "" && u.isActive && !u.isStaff && !u.isSuperuser
    ensures extra.name.Some? ==> u.name == extra.name.value
    ensures extra.isActive.Some? ==> u.isActive == extra.isActive.value
    ensures extra.isStaff.Some? ==> u.isStaff == extra.isStaff.value
    ensures extra.isSuperuser.Some? ==> u.isSuperuser == extra.isSuperuser.value
  {
    User(0, email, extra.name.GetOr(""), Unusable,
         extra.isActive.GetOr(true), extra.isStaff.GetOr(false), extra.isSuperuser.GetOr(false))
  }

  // ---------------------------------------------------------------------
  // The table and its two kinds of save

  predicate EmailTaken(users: seq<User>, email: string)
  {
    exists i | 0 <= i < |users| :: users[i].email == email
  }

  /**
   * The table invariant: row i has primary key i + 1, no email is empty and
   * no two rows share an email (core/models.py:43).
   */
  predicate ValidTable(users: seq<User>): (valid: bool)
    ensures valid ==> forall i, j :: 0 <= i < |users| && 0 <= j < |users| && users[i].email == users[j].email ==> i == j
    ensures valid ==> forall i :: 0 <= i < |users| ==> !EmailTaken(users[..i] + users[i + 1..], users[i].email)
  {
    && (forall i | 0 <= i < |users| :: users[i].pk == i + 1 && users[i].email != "")
    && (forall i, j | 0 <= i < j < |users| :: users[i].email != users[j].email)
  }

  /** `user.save()` of a user without a row: an INSERT with the next key. */
  function Insert(users: seq<User>, user: User): (r: Result<seq<User>, Error>)
    ensures ValidTable(users) && user.email != "" && r.Success? ==> ValidTable(r.value)
  {
    if EmailTaken(users, user.email) then Failure(IntegrityError("email"))
    else Success(users + [user.(pk := |users| + 1)])
  }

  /** `user.save()` of a user that has a row: an UPDATE of that row. */
  function Update(users: seq<User>, user: User): (r: Result<seq<User>, Error>)
    requires 1 <= user.pk <= |users|
    ensures ValidTable(users) && user.email != "" && r.Success? ==> ValidTable(r.value)
  {
    if exists i | 0 <= i < |users| && i != user.pk - 1 :: users[i].email == user.email
    then Failure(IntegrityError("email"))
    else Success(users[user.pk - 1 := user])
  }

  // ---------------------------------------------------------------------
  // The factory, as functions of the table

  /**
   * What `create_user(email, password, **extra)` does to the table `users`:
   * a missing email is a ValueError, an email already stored (after
   * normalising) is an IntegrityError, and otherwise exactly one row is
   * appended.
   */
  function CreateUserOutcome(users: seq<User>, email: Option<string>, password: Option<string>,
                             extra: ExtraFields): (r: Result<Created, Error>)
    ensures MissingEmail(email) ==> r == Failure(ValueError(MissingEmailMessage))
    ensures !MissingEmail(email) ==>
      (r.Failure? <==> EmailTaken(users, NormalizeEmail(email.value)))
    ensures !MissingEmail(email) && r.Failure? ==> r.error == IntegrityError("email")
    ensures r.Success? ==>
      var u := r.value.user;
      && r.value.table == users + [u]
      && u.pk == |users| + 1
      && u.email == NormalizeEmail(email.value)
      && (forall attempt :: CheckPassword(u.password, attempt) <==> password == Some(attempt))
      && u.name == extra.name.GetOr("")
      && u.isActive == extra.isActive.GetOr(true)
      && u.isStaff == extra.isStaff.GetOr(false)
      && u.isSuperuser == extra.isSuperuser.GetOr(false)
    ensures ValidTable(users) && r.Success? ==> ValidTable(r.value.table)
  {
    if MissingEmail(email) then Failure(ValueError(MissingEmailMessage))
    else
      var user := NewUser(NormalizeEmail(email.value), extra).(password := SetPassword(password));
      match Insert(users, user)
      case Failure(e) => Failure(e)
      case Success(t) => Success(Created(t, t[|t| - 1]))
  }

  /**
   * What `create_superuser(email, password)` does: create_user without extra
   * fields, then staff and superuser set and the row saved again. It fails
   * exactly when create_user would, with the same error; on success the
   * superuser is create_user's user with both flags set, and it is the one
   * row added. The second save never fails, since the first one found the
   * email free.
   */
  function CreateSuperuserOutcome(users: seq<User>, email: Option<string>, password: Option<string>)
    : (r: Result<Created, Error>)
    ensures var c := CreateUserOutcome(users, email, password, NoExtraFields);
      && (r.Failure? <==> c.Failure?)
      && (r.Failure? ==> r.error == c.error)
      && (r.Success? ==>
            && r.value.user == c.value.user.(isStaff := true, isSuperuser := true)
            && r.value.table == users + [r.value.user])
  {
    match CreateUserOutcome(users, email, password, NoExtraFields)
    case Failure(e) => Failure(e)
    case Success(c) =>
      var user := c.user.(isStaff := true, isSuperuser := true);
      match Update(c.table, user)
      case Failure(e) => Failure(e)
      case Success(t) => Success(Created(t, user))
  }

  // ---------------------------------------------------------------------
  // Lemmas

  /**
   * Once create_user has stored an address, a second create_user with any
   * spelling of it that normalises the same is refused by the unique index.
   */
  lemma DuplicateEmailRejected(users: seq<User>, email: Option<string>, password: Option<string>, extra: ExtraFields,
                               again: string, password2: Option<string>, extra2: ExtraFields)
    requires CreateUserOutcome(users, email, password, extra).Success?
    requires NormalizeEmail(again) == NormalizeEmail(email.value)
    ensures CreateUserOutcome(CreateUserOutcome(users, email, password, extra).value.table, Some(again), password2, extra2)
         == Failure(IntegrityError("email"))
  {
    var c := CreateUserOutcome(users, email, password, extra).value;
    assert c.table[|users|].email == NormalizeEmail(again);
  }

  /**
   * `create_user('test@LOCALHOST.COM', password)` on a table without that
   * address stores `test@localhost.com` and a password that checks.
   */
  lemma CreateUserMixedCaseEmail(users: seq<User>, password: string)
    requires !EmailTaken(users, "test@localhost.com")
    ensures var r := CreateUserOutcome(users, Some(MixedCaseAddress), Some(password), NoExtraFields);
      && r.Success?
      && r.value.user.email == "test@localhost.com"
      && CheckPassword(r.value.user.password, password)
      && r.value.user.isActive && !r.value.user.isStaff
  {
    NormalizeMixedCaseDomain();
  }

  // ---------------------------------------------------------------------
  // The manager, over the table it saves to

  class UserManager {

    /** The user table (`self._db`), in primary-key order. */
    var users: seq<User>

    ghost predicate Valid()
      reads this
    {
      ValidTable(users)
    }

    constructor ()
      ensures Valid() && users == []
    {
      users := [];
    }

    /** `user.save()` for a user with no row yet. */
    method SaveNew(user: User) returns (r: Result<User, Error>)
      requires Valid() && user.email != ""
      modifies this
      ensures Valid()
      ensures match Insert(old(users), user)
        case Success(t) => users == t && r == Success(t[|t| - 1])
        case Failure(e) => users == old(users) && r == Failure(e)
    {
      match Insert(users, user)
      case Failure(e) =>
        r := Failure(e);
      case Success(t) =>
        users := t;
        r := Success(t[|t| - 1]);
    }

    /** `user.save()` for a user that already has a row. */
    method SaveExisting(user: User) returns (r: Result<User, Error>)
      requires Valid() && user.email != ""
      requires 1 <= user.pk <= |users|
      modifies this
      ensures Valid()
      ensures match Update(old(users), user)
        case Success(t) => users == t && r == Success(user)
        case Failure(e) => users == old(users) && r == Failure(e)
    {
      match Update(users, user)
      case Failure(e) =>
        r := Failure(e);
      case Success(t) =>
        users := t;
        r := Success(user);
    }

    /** `create_user(email, password=None, **extra_fields)`. */
    method CreateUser(email: Option<string>, password: Option<string>, extra: ExtraFields)
      returns (r: Result<User, Error>)
      requires Valid()
      modifies this
      ensures Valid()
      ensures match CreateUserOutcome(old(users), email, password, extra)
        case Success(c) => users == c.table && r == Success(c.user)
        case Failure(e) => users == old(users) && r == Failure(e)
    {
      if MissingEmail(email) {
        return Failure(ValueError(MissingEmailMessage));
      }
      var user := NewUser(NormalizeEmail(email.value), extra);
      user := user.(password := SetPassword(password));
      r := SaveNew(user);
    }

    /** `create_superuser(email, password)`. */
    method CreateSuperuser(email: Option<string>, password: Option<string>)
      returns (r: Result<User, Error>)
      requires Valid()
      modifies this
      ensures Valid()
      ensures match CreateSuperuserOutcome(old(users), email, password)
        case Success(c) => users == c.table && r == Success(c.user)
        case Failure(e) => users == old(users) && r == Failure(e)
    {
      r := CreateUser(email, password, NoExtraFields);
      if r.Failure? {
        return;
      }
      var user := r.value;
      user := user.(isStaff := true);
      user := user.(isSuperuser := true);
      r := SaveExisting(user);
    }
  }
}
