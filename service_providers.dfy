/** `src/app/api/service-providers/route.js`: listing the providers (GET) and creating one
    (POST). Both flatten a provider and its user into one record whose `id` is the provider's. */
module ServiceProviders {
  import opened Common
  import opened Rows
  import opened Helpers
  import opened Tables
  import opened ProviderAccounts

  /** POST /api/service-providers: the record itself is the reply's `data`. */
  method PostServiceProvider(db: Store, form: ProviderForm, passwordHash: string, profileColor: string,
                             timestamp: nat, random: string)
    returns (resp: Reply<ProviderView>)
    requires db.Valid()
    modifies db`users, db`nextUserId, db`providers, db`nextProviderId
    ensures db.Valid() && UniqueEmails(db.users)
    ensures !Admissible(old(db.users), form, timestamp, random) ==> resp == Refusal(old(db.users), form, timestamp, random)
    ensures resp.Success? <==> Admissible(old(db.users), form, timestamp, random)
    ensures resp.Success? ==>
      var u := NewUser(old(db.nextUserId), form, passwordHash, profileColor, StoredName(SaveImage(form.image, timestamp, random)));
      var p := NewProvider(old(db.nextProviderId), u.id, form);
      && resp.status == 201 && resp.value == Flatten(p, u)
      && db.users == old(db.users) + [u] && db.providers == old(db.providers) + [p]
      && db.nextUserId == old(db.nextUserId) + 1 && db.nextProviderId == old(db.nextProviderId) + 1
    ensures resp.Failure? ==>
      && db.users == old(db.users) && db.nextUserId == old(db.nextUserId)
      && db.providers == old(db.providers) && db.nextProviderId == old(db.nextProviderId)
  {
    resp := Register(db, form, passwordHash, profileColor, timestamp, random);
  }

  /** The user a provider's `user_id` points at: the first row with that id. */
  function UserOf(users: seq<User>, id: int): (u: User)
    requires IsUser(users, id)
    ensures u in users && u.id == id
  {
    var w :| w in users && w.id == id;
    var k :| 0 <= k < |users| && users[k] == w;
    assert UserId(users[k]) == id;
    Find(users, UserId, id).value
  }

  /** GET /api/service-providers: one record per provider, in table order, each merged with the
      user its `user_id` points at. The schema's foreign key guarantees that user exists. */
  function ListProviders(users: seq<User>, providers: seq<Provider>): (r: seq<ProviderView>)
    requires forall p | p in providers :: IsUser(users, p.userId)
    ensures |r| == |providers|
    ensures forall i | 0 <= i < |r| :: r[i].id == providers[i].id && r[i].userId == providers[i].userId
    ensures forall i | 0 <= i < |r| :: r[i] == Flatten(providers[i], UserOf(users, providers[i].userId))
  {
    if providers == [] then []
    else
      assert providers[0] in providers;
      assert forall p | p in providers[1..] :: p in providers;
      [Flatten(providers[0], UserOf(users, providers[0].userId))] + ListProviders(users, providers[1..])
  }

  /** With one user per id, the merged record shows exactly the e-mail address, name, role,
      status and picture of the provider's user. */
  lemma ListedUserFields(users: seq<User>, providers: seq<Provider>, i: int, u: User)
    requires forall p | p in providers :: IsUser(users, p.userId)
    requires UniqueUserIds(users)
    requires 0 <= i < |providers| && u in users && u.id == providers[i].userId
    ensures var v := ListProviders(users, providers)[i];
      && v.email == u.email && v.name == u.name && v.role == u.role && v.status == u.status
      && v.profileImage == GetImageUrl(u.profileImage)
  {
    var w := UserOf(users, providers[i].userId);
    var a :| 0 <= a < |users| && users[a] == u;
    var b :| 0 <= b < |users| && users[b] == w;
    assert a == b;
  }
}
