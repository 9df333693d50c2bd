# Recipe API core: image upload paths and the user factory

This project models the part of the recipe-management API's `core/models.py`
that has logic of its own:

- **`recipe_image_file_path(instance, filename)`**: the storage path of an
  uploaded recipe image. Only the extension of the uploaded name survives: the
  piece after the last `.`, taken with `filename.rsplit('.')[-1]`. The path is
  `uploads/recipe/<uuid>.<ext>`. Module `RecipeImage` (`recipe_image.dfy`)
  defines Python's dot-split as `Split`, proves it is the one dot-free
  decomposition of the name (`Join(Split(s)) == s`, `SplitUnique`), and proves
  the path's shape, the no-dot case and that the path depends on the name only
  through its extension.
- **`UserManager.create_user` / `create_superuser`**: the factory of the custom
  `User` model, whose `email` column is unique. Module `Users` (`users.dfy`)
  gives the factory's effect on the user table as the functions
  `CreateUserOutcome` and `CreateSuperuserOutcome`. It proves their error cases,
  field defaults, password check and email normalisation, and that the table
  invariant holds: keys in order, no empty email, no duplicate email. The class
  `UserManager` holds the table as a sequence of rows. Its methods follow the
  source step by step: build the user, set the password, save, set the flags,
  save again. Each method's postcondition ties the new table to those
  functions.
- The Django primitives the factory calls are in `AuthPrimitives`
  (`auth_primitives.dfy`): `set_password` / `check_password` over a symbolic
  hash, and `normalize_email`, which lower-cases the domain after the last `@`.
  `Wrappers` (`wrappers.dfy`) holds `Option` (Python's `None`) and `Result`
  (the raised exceptions).

The random `uuid.uuid4()` value is a parameter of `RecipeImageFilePath`.

Two details of the code are easy to misread:

- The test at core/tests/test_models.py:31 compares the stored email with
  `email.lower()`. `normalize_email` lower-cases only the domain part, so
  `Te@X.COM` is stored as `Te@x.com`. The two agree only when the local part
  has no capitals (`NormalizeEmailIsLowerWhenLocalIsLower`).
- The image's new name is the uuid alone. The original stem is dropped; the
  code does not compare the uuid with it.

## Model

| member | source | states |
|---|---|---|
| `RecipeImage.Split` | core/models.py:12 | `rsplit('.')` yields at least one piece; no piece holds a `.`; joining the pieces with `.` gives back the filename |
| `RecipeImage.SplitUnique` | core/models.py:12 | any non-empty list of dot-free pieces that joins to `s` is exactly `Split(s)`, so `Split` is the only such decomposition |
| `RecipeImage.SplitAtDot` | core/models.py:12 | splitting `a + "." + b` gives the pieces of `a` followed by the pieces of `b` |
| `RecipeImage.SplitWithoutDot` | core/models.py:12 | a string with no `.` splits into the one-element list holding it |
| `RecipeImage.Extension` | core/models.py:12 | `rsplit('.')[-1]` is a dot-free suffix of the filename |
| `RecipeImage.RecipeImageFilePath` | core/models.py:8-15 | the path starts with `uploads/recipe/<uuid>`, followed by more text, and its own extension is the uploaded file's extension |
| `RecipeImage.ExtensionIsAfterLastDot` | core/models.py:12 | the extension is a dot-free suffix of the filename; it is the whole name exactly when the name has no `.`, and otherwise a `.` comes right before it |
| `RecipeImage.ExtensionWithoutDot` | core/models.py:12 | a filename without `.` is its own extension |
| `RecipeImage.ExtensionOfStemAndExt` | core/models.py:12 | for `stem + "." + ext` with a dot-free `ext`, the extension is `ext`, whatever the stem holds |
| `RecipeImage.PathOfStemAndExt` | core/models.py:8-15 | the path of `stem.ext` is exactly `uploads/recipe/<uuid>.<ext>`, with the stem gone, for any instance |
| `RecipeImage.SamePathIffSameExtension` | core/models.py:8-15 | for one uuid, two uploads get the same path if and only if their extensions agree; the instance never matters |
| `RecipeImage.MyImageJpgPath` | core/tests/test_models.py:72-79 | `myimage.jpg` has extension `jpg`; with uuid `test-uuid` and no instance its path is `uploads/recipe/test-uuid.jpg` |
| `AuthPrimitives.SetPassword` | core/models.py:26 | after `set_password(p)`, `check_password(a)` holds exactly when `p` is `a`; `set_password(None)` makes every check fail |
| `AuthPrimitives.CheckPassword` | core/tests/test_models.py:25 | an unusable password never checks; a check succeeds only for the one password the hash was made from |
| `AuthPrimitives.Lower` | core/tests/test_models.py:31 | `lower()` keeps the length, leaves no capital letter, keeps every other character and maps each capital to its small letter |
| `AuthPrimitives.NormalizeEmail` | core/models.py:25 | normalising keeps the address's length, so a non-empty address stays non-empty |
| `AuthPrimitives.NormalizeEmailSplitsAtLastAt` | core/models.py:25 | for `local@domain` with no `@` in the domain, the local part is kept and the domain is lower-cased |
| `AuthPrimitives.NormalizeEmailWithoutAt` | core/models.py:25 | an address without `@` is returned unchanged |
| `AuthPrimitives.NormalizeEmailIdempotent` | core/models.py:25 | normalising an already normalised address changes nothing |
| `AuthPrimitives.NormalizeEmailIsLowerWhenLocalIsLower` | core/tests/test_models.py:27-31 | when the local part has no capitals, normalising equals `email.lower()` |
| `AuthPrimitives.NormalizeMixedCaseDomain` | core/tests/test_models.py:27-31 | `test@LOCALHOST.COM` normalises to `test@localhost.com` |
| `Users.MissingEmail` | core/models.py:23 | `not email` holds exactly for None and the empty string |
| `Users.NewUser` | core/models.py:25 | the unsaved user has no key yet, the given email and no usable password; each extra field that is given sets its column (`name`, `is_active`, `is_staff`, `is_superuser`); without extra fields the user has name '' (Django's implicit CharField default, since line 44 gives none), is active (line 45), is not staff (line 46) and is not superuser (PermissionsMixin's default) |
| `Users.ValidTable` | core/models.py:43 | in a valid table no two rows share an email, and no row's email appears among the other rows |
| `Users.Insert` | core/models.py:43 | saving a new row into a valid table (keys in order, no empty and no repeated email) leaves it valid |
| `Users.Update` | core/models.py:37 | re-saving an existing row keeps the table valid |
| `Users.CreateUserOutcome` | core/models.py:21-29 | a None or empty email is a ValueError; otherwise it fails, always with an IntegrityError, exactly when the normalised email is already stored; on success exactly one row is appended and the old rows are unchanged; the new row has the next key, the normalised email, a password that checks exactly for the given one, and `name` '', `is_active` True, `is_staff` False, `is_superuser` False unless the extra fields say otherwise; the table invariant is kept |
| `Users.CreateSuperuserOutcome` | core/models.py:31-38 | create_superuser fails exactly when create_user would, with the same error; on success it returns create_user's user (same normalised email and password) with `is_staff` and `is_superuser` set, and that user is the one row added; the second save never fails |
| `Users.DuplicateEmailRejected` | core/models.py:43 | after create_user stores an address, any create_user whose email normalises the same is refused with an IntegrityError |
| `Users.CreateUserMixedCaseEmail` | core/tests/test_models.py:27-31 | creating `test@LOCALHOST.COM` on a table without that address stores `test@localhost.com`, active and not staff, with a password that checks |
| `Users.UserManager.constructor` | core/models.py:48 | a new manager starts with an empty, valid table |
| `Users.UserManager.SaveNew` | core/models.py:27 | inserts the user with the next key, or changes nothing and reports the IntegrityError; keeps the table valid |
| `Users.UserManager.SaveExisting` | core/models.py:37 | overwrites the user's row, or changes nothing and reports the IntegrityError; keeps the table valid |
| `Users.UserManager.CreateUser` | core/models.py:21-29 | leaves the table and returns the user exactly as `CreateUserOutcome` says, and unchanged on every error |
| `Users.UserManager.CreateSuperuser` | core/models.py:31-38 | leaves the table and returns the user exactly as `CreateSuperuserOutcome` says, and unchanged on every error |

## Left out

- Recipe filtering by tag and ingredient ids, and the `assigned_only` filter on tags and ingredients, are not modelled. The recipe view module that implements them is not part of this model.
- Token issuance and logout (user/views.py:17-37) are not modelled. They are thin wrappers over the REST framework's token view and token model.
- The minimum password length and the serializers are not modelled. The user serializer module is not part of this model, and recipe/serializers.py only declares fields.
- Password hashing is symbolic: a hash remembers its raw password, and `check_password` compares with it. Salting, the hash algorithm and constant-time comparison are outside the model.
- `normalize_email` does not model Django's `strip()` of surrounding whitespace. Lower-casing covers the ASCII letters only, not full Unicode `str.lower()`.
- `uuid.uuid4()` is a parameter, not a random source. The one-argument `os.path.join` returns its argument unchanged, so it has no counterpart.
- Users.CreateUserOutcome: `**extra_fields` is narrowed to the four columns `name`, `is_active`, `is_staff` and `is_superuser`. The model drops the TypeError that `self.model(...)` raises for an unknown keyword or for a second `email=`. It also drops the pass-through of other model fields such as `id=` or `last_login=`.
- Users.ValidTable: primary keys are modelled as dense, 1 to n in insertion order. A database whose sequence uses up a key on a refused INSERT (PostgreSQL, for one) would give the next user a higher key than `|users| + 1`.
- Users.Update: a save of a user whose key has no row is not modelled; Django would insert it. create_superuser only ever re-saves the row that create_user has just written.
- Users.UserManager.SaveExisting: same restriction as `Users.Update`.
- Transactions, concurrent requests and the database engine itself are outside the model. Each save is atomic: a refused save changes nothing.
- The Tag, Ingredient and Recipe models (core/models.py:53-86) are left out. They are column declarations and `__str__` methods that return a stored field. Image decoding, file storage and HTTP status codes are I/O and are also left out.
- Column limits (`max_length`, the decimal price) are database constraints with no code behind them.
