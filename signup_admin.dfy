/** `src/app/api/signup/admin/route.js`: registering an administrator from a multipart form,
    with an optional profile picture. */
module AdminSignup {
  import opened Common
  import opened Rows
  import opened Helpers
  import opened Tables

  /** The form fields. `None` for a text is a field that is absent; `dateOfBirth` is `None` when
      absent or empty; `image` is the `profile_image`
      part, a file or a text. */
  datatype AdminForm = AdminForm(
    email: Option<string>,
    password: Option<string>,
    name: Option<string>,
    dateOfBirth: Option<int>,
    phone: Option<string>,
    status: Option<string>,
    image: Option<FormPart>)

  const DefaultUserStatus: string := "active"
  const FieldsRequired: string := "Email, password, and name are required."
  const EmailExists: string := "User with this email already exists."

  predicate HasAccountFields(f: AdminForm)
  {
    Truthy(f.email) && Truthy(f.password) && Truthy(f.name)
  }

  /** The user as the reply shows it: no password, and the picture as its public URL. */
  function WithImageUrl(u: User): (v: PublicUser)
  {
    Public(u).(profileImage := GetImageUrl(u.profileImage))
  }

  /** POST /api/signup/admin. `passwordHash` is the hash of the submitted password,
      `profileColor` the randomly chosen color, `timestamp` and `random` name the saved picture. */
  method PostAdminSignup(db: Store, form: AdminForm, passwordHash: string, profileColor: string,
                         timestamp: nat, random: string)
    returns (resp: Reply<PublicUser>)
    requires db.Valid()
    modifies db`users, db`nextUserId
    ensures db.Valid() && UniqueEmails(db.users)
    ensures !HasAccountFields(form) ==> resp == Failure(400, FieldsRequired)
    ensures HasAccountFields(form) && EmailTaken(old(db.users), form.email.value) ==> resp == Failure(400, EmailExists)
    ensures (HasAccountFields(form) && !EmailTaken(old(db.users), form.email.value)
             && SaveImage(form.image, timestamp, random).Invalid?) ==>
      resp == Failure(400, SaveImage(form.image, timestamp, random).message)
    ensures resp.Success? <==>
      HasAccountFields(form) && !EmailTaken(old(db.users), form.email.value)
      && !SaveImage(form.image, timestamp, random).Invalid?
    ensures resp.Success? ==>
      var u := User(old(db.nextUserId), form.email.value, passwordHash, form.name.value, Admin, form.dateOfBirth,
                    form.phone, profileColor, StoredName(SaveImage(form.image, timestamp, random)),
                    OrElse(form.status, DefaultUserStatus));
      && resp.status == 201 && resp.value == WithImageUrl(u)
      && resp.value.role == Admin
      && db.users == old(db.users) + [u] && db.nextUserId == old(db.nextUserId) + 1
    ensures resp.Failure? ==> db.users == old(db.users) && db.nextUserId == old(db.nextUserId)
  {
    var status := OrElse(form.status, DefaultUserStatus);
    if !Truthy(form.email) || !Truthy(form.password) || !Truthy(form.name) {
      return Failure(400, FieldsRequired);
    }
    if EmailTaken(db.users, form.email.value) {
      return Failure(400, EmailExists);
    }
    var saved := SaveImage(form.image, timestamp, random);
    if saved.Invalid? {
      return Failure(400, saved.message);
    }
    var created := db.CreateUser(form.email.value, passwordHash, form.name.value, Admin, form.dateOfBirth,
                                 form.phone, profileColor, StoredName(saved), status);
    return Success(201, WithImageUrl(created.value));
  }
}
