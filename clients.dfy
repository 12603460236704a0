/** `src/app/api/clients/route.js`: registering a client (POST) and listing clients (GET).
    The e-mail address is checked before the insert, so the user table keeps its addresses
    unique. */
module Clients {
  import opened Common
  import opened Rows
  import opened Tables

  /** The JSON body. `None` for a required text is one absent or empty; `None` for `status` is
      one the body leaves out; the other fields are stored as given. */
  datatype ClientForm = ClientForm(
    email: Option<string>,
    password: Option<string>,
    name: Option<string>,
    dateOfBirth: Option<int>,
    phone: Option<string>,
    profileImage: Option<string>,
    status: Option<string>)

  const DefaultUserStatus: string := "active"
  const FieldsRequired: string := "Email, password, and name are required."
  const EmailExists: string := "User with this email already exists."

  predicate HasAccountFields(f: ClientForm)
  {
    Truthy(f.email) && Truthy(f.password) && Truthy(f.name)
  }

  /** POST /api/clients. `passwordHash` is what the credential hasher makes of the password;
      `profileColor` is the randomly chosen color. */
  method PostClient(db: Store, form: ClientForm, passwordHash: string, profileColor: string)
    returns (resp: Reply<PublicUser>)
    requires db.Valid()
    modifies db`users, db`nextUserId
    ensures db.Valid() && UniqueEmails(db.users)
    ensures !HasAccountFields(form) ==> resp == Failure(400, FieldsRequired)
    ensures HasAccountFields(form) && EmailTaken(old(db.users), form.email.value) ==> resp == Failure(400, EmailExists)
    ensures resp.Success? <==> HasAccountFields(form) && !EmailTaken(old(db.users), form.email.value)
    ensures resp.Success? ==>
      var u := User(old(db.nextUserId), form.email.value, passwordHash, form.name.value, Client, form.dateOfBirth,
                    form.phone, profileColor, form.profileImage, GetOr(form.status, DefaultUserStatus));
      && resp.status == 201 && resp.value == Public(u)
      && db.users == old(db.users) + [u] && db.nextUserId == old(db.nextUserId) + 1
    ensures resp.Failure? ==> db.users == old(db.users) && db.nextUserId == old(db.nextUserId)
  {
    if !Truthy(form.email) || !Truthy(form.password) || !Truthy(form.name) {
      return Failure(400, FieldsRequired);
    }
    if EmailTaken(db.users, form.email.value) {
      return Failure(400, EmailExists);
    }
    var status := GetOr(form.status, DefaultUserStatus);
    var created := db.CreateUser(form.email.value, passwordHash, form.name.value, Client, form.dateOfBirth,
                                 form.phone, profileColor, form.profileImage, status);
    return Success(201, Public(created.value));
  }

  function IsClient(u: User): bool { u.role == Client }

  /** GET /api/clients: every user whose role is CLIENT, in table order, without passwords. */
  function ListClients(users: seq<User>): (r: seq<PublicUser>)
    ensures forall v :: v in r <==> exists u | u in users && u.role == Client :: Public(u) == v
    ensures forall v | v in r :: v.role == Client
    ensures |r| == |Filter(users, IsClient)|
    ensures forall i | 0 <= i < |r| :: r[i] == Public(Filter(users, IsClient)[i])
  {
    var clients := Filter(users, IsClient);
    FilterMembers(users, IsClient);
    var r := seq(|clients|, i requires 0 <= i < |clients| => Public(clients[i]));
    assert forall u | u in clients :: Public(u) in r by {
      forall u | u in clients ensures Public(u) in r {
        var i :| 0 <= i < |clients| && clients[i] == u;
        assert r[i] == Public(u);
      }
    }
    assert forall i | 0 <= i < |r| :: clients[i] in clients && r[i] == Public(clients[i]);
    r
  }
}
