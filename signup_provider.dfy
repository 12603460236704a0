/** `src/app/api/signup/service-provider/route.js`: a service provider signs up. The reply
    wraps the flattened record as `data.user`. */
module ProviderSignup {
  import opened Common
  import opened Rows
  import opened Helpers
  import opened Tables
  import opened ProviderAccounts

  /** The `data` of the reply. */
  datatype SignupData = SignupData(user: ProviderView)

  /** POST /api/signup/service-provider. */
  method PostProviderSignup(db: Store, form: ProviderForm, passwordHash: string, profileColor: string,
                            timestamp: nat, random: string)
    returns (resp: Reply<SignupData>)
    requires db.Valid()
    modifies db`users, db`nextUserId, db`providers, db`nextProviderId
    ensures db.Valid() && UniqueEmails(db.users)
    ensures !Admissible(old(db.users), form, timestamp, random) ==>
      var refused := Refusal(old(db.users), form, timestamp, random);
      resp == Failure(refused.status, refused.message)
    ensures resp.Success? <==> Admissible(old(db.users), form, timestamp, random)
    ensures resp.Success? ==>
      var u := NewUser(old(db.nextUserId), form, passwordHash, profileColor, StoredName(SaveImage(form.image, timestamp, random)));
      var p := NewProvider(old(db.nextProviderId), u.id, form);
      && resp.status == 201 && resp.value == SignupData(Flatten(p, u))
      && db.users == old(db.users) + [u] && db.providers == old(db.providers) + [p]
      && db.nextUserId == old(db.nextUserId) + 1 && db.nextProviderId == old(db.nextProviderId) + 1
    ensures resp.Failure? ==>
      && db.users == old(db.users) && db.nextUserId == old(db.nextUserId)
      && db.providers == old(db.providers) && db.nextProviderId == old(db.nextProviderId)
  {
    var r := Register(db, form, passwordHash, profileColor, timestamp, random);
    if r.Failure? {
      return Failure(r.status, r.message);
    }
    return Success(r.status, SignupData(r.value));
  }
}
