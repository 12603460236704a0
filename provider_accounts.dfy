/** What the two provider-registration routes (`src/app/api/signup/service-provider/route.js` and
    the POST of `src/app/api/service-providers/route.js`) have in common: the form, the checks
    made before anything is written, the user and provider rows the transaction inserts, and
    the flattened provider record the replies and the provider list are made of. */
module ProviderAccounts {
  import opened Common
  import opened Rows
  import opened Helpers
  import opened Tables

  /** The multipart form. `None` for a text is a field that is absent; `dateOfBirth` and
      `experienceYears` are `None` when absent or empty; `image` is the `profile_image` part,
      a file or a text. */
  datatype ProviderForm = ProviderForm(
    email: Option<string>,
    password: Option<string>,
    name: Option<string>,
    dateOfBirth: Option<int>,
    phone: Option<string>,
    ethnicity: Option<string>,
    hairColor: Option<string>,
    experienceYears: Option<int>,
    certifications: Option<string>,
    specialties: Option<string>,
    address: Option<string>,
    image: Option<FormPart>)

  /** A provider profile merged with its user: the provider's columns, the user's columns
      without the user id and the password, and the picture as its public URL. `id` is the
      provider's id. */
  datatype ProviderView = ProviderView(
    id: int,
    userId: int,
    email: string,
    name: string,
    role: Role,
    dateOfBirth: Option<int>,
    status: string,
    phone: Option<string>,
    profileColor: string,
    profileImage: Option<string>,
    ethnicity: Option<string>,
    hairColor: Option<string>,
    experienceYears: Option<int>,
    certifications: Option<string>,
    specialties: Option<string>,
    address: Option<string>)

  /** A new provider's account is always active; the form has no status field. */
  const ActiveStatus: string := "active"
  const FieldsRequired: string := "Email, password, and name are required."
  const EmailExists: string := "User with this email already exists."

  predicate HasAccountFields(f: ProviderForm)
  {
    Truthy(f.email) && Truthy(f.password) && Truthy(f.name)
  }

  /** Every check before the transaction passes: the required fields, a free e-mail address
      and an acceptable picture (or none). */
  predicate Admissible(users: seq<User>, f: ProviderForm, timestamp: nat, random: string)
  {
    HasAccountFields(f) && !EmailTaken(users, f.email.value) && !SaveImage(f.image, timestamp, random).Invalid?
  }

  /** The reply of a refused registration, in the order the checks run. */
  function Refusal(users: seq<User>, f: ProviderForm, timestamp: nat, random: string): (r: Reply<ProviderView>)
    requires !Admissible(users, f, timestamp, random)
    ensures r.Failure? && r.status == 400
    ensures !HasAccountFields(f) ==> r.message == FieldsRequired
    ensures HasAccountFields(f) && EmailTaken(users, f.email.value) ==> r.message == EmailExists
    ensures HasAccountFields(f) && !EmailTaken(users, f.email.value) ==>
      r.message == SaveImage(f.image, timestamp, random).message
  {
    if !HasAccountFields(f) then Failure(400, FieldsRequired)
    else if EmailTaken(users, f.email.value) then Failure(400, EmailExists)
    else Failure(400, SaveImage(f.image, timestamp, random).message)
  }

  /** The user row of the transaction. */
  function NewUser(id: int, f: ProviderForm, passwordHash: string, profileColor: string, picture: Option<string>): User
    requires HasAccountFields(f)
  {
    User(id, f.email.value, passwordHash, f.name.value, ServiceProvider, f.dateOfBirth, f.phone, profileColor,
         picture, ActiveStatus)
  }

  /** The provider row of the transaction, pointing at the user row. */
  function NewProvider(id: int, userId: int, f: ProviderForm): Provider
  {
    Provider(id, userId, f.ethnicity, f.hairColor, f.experienceYears, f.certifications, f.specialties, f.address)
  }

  /** The merge of a provider and its user. */
  function Flatten(p: Provider, u: User): ProviderView
  {
    ProviderView(p.id, p.userId, u.email, u.name, u.role, u.dateOfBirth, u.status, u.phone, u.profileColor,
                 GetImageUrl(u.profileImage), p.ethnicity, p.hairColor, p.experienceYears, p.certifications,
                 p.specialties, p.address)
  }

  /** The transaction shared by both routes, run once every check has passed: one user and one
      provider profile, appended together. */
  method Register(db: Store, form: ProviderForm, passwordHash: string, profileColor: string,
                  timestamp: nat, random: string)
    returns (resp: Reply<ProviderView>)
    requires db.Valid()
    modifies db`users, db`nextUserId, db`providers, db`nextProviderId
    ensures db.Valid() && UniqueEmails(db.users)
    ensures !Admissible(old(db.users), form, timestamp, random) ==> resp == Refusal(old(db.users), form, timestamp, random)
    ensures resp.Success? <==> Admissible(old(db.users), form, timestamp, random)
    ensures resp.Success? ==>
      var u := NewUser(old(db.nextUserId), form, passwordHash, profileColor, StoredName(SaveImage(form.image, timestamp, random)));
      var p := NewProvider(old(db.nextProviderId), u.id, form);
      && resp.status == 201 && resp.value == Flatten(p, u)
      && resp.value.id == p.id && resp.value.userId == u.id && resp.value.role == ServiceProvider
      && db.users == old(db.users) + [u] && db.providers == old(db.providers) + [p]
      && db.nextUserId == old(db.nextUserId) + 1 && db.nextProviderId == old(db.nextProviderId) + 1
    ensures resp.Failure? ==>
      && db.users == old(db.users) && db.nextUserId == old(db.nextUserId)
      && db.providers == old(db.providers) && db.nextProviderId == old(db.nextProviderId)
  {
    if !Truthy(form.email) || !Truthy(form.password) || !Truthy(form.name) {
      return Failure(400, FieldsRequired);
    }
    if EmailTaken(db.users, form.email.value) {
      return Failure(400, EmailExists);
    }
    var saved := SaveImage(form.image, timestamp, random);
    if saved.Invalid? {
      return Failure(400, saved.message);
    }
    var created := db.CreateUserWithProvider(form.email.value, passwordHash, form.name.value, ServiceProvider,
                                             form.dateOfBirth, form.phone, profileColor, StoredName(saved), ActiveStatus,
                                             form.ethnicity, form.hairColor, form.experienceYears, form.certifications,
                                             form.specialties, form.address);
    var (u, p) := created.value;
    return Success(201, Flatten(p, u));
  }
}
