/** The identity database behind the login flows (services/identity/internal/repo/mysql/user_repo.go)
    and the limiter of device challenges (services/identity/internal/devverify/limiter.go), one call
    at a time. */
module IdentityRepo {
  import opened Decimal
  import opened Accounts
  import Events
  import Pipeline

  datatype Profile = Profile(nickname: string, image: Option<string>)

  datatype Seen = Seen(name: Option<string>, at: nat)

  // The statement of CreateUser that fails for a reason other than a duplicate key.
  datatype Fault = NoFault | AtUser | AtCredential | AtProfile | AtOutbox | AtCommit

  datatype Created = Created(user: int) | Conflict | Error

  datatype Found = Found(user: int, account: Account) | NotFound

  function Nullable(s: string): Option<string> {
    if s == "" then None else Some(s)
  }

  /** Every account has a profile and exactly one outbox row, which carries its nickname as it was. */
  ghost predicate OneRowEach(profiles: map<int, Profile>, outbox: seq<Events.Row>) {
    && (forall i :: 0 <= i < |outbox| ==> outbox[i].user in profiles && outbox[i].nickname == profiles[outbox[i].user].nickname)
    && (forall i, j :: 0 <= i < j < |outbox| ==> outbox[i].user != outbox[j].user)
    && (forall u :: u in profiles ==> exists i :: 0 <= i < |outbox| && outbox[i].user == u)
  }

  ghost predicate Consistent(users: map<int, Account>, credentials: map<string, int>, profiles: map<int, Profile>,
                             devices: map<Device, Seen>, nextId: int) {
    && profiles.Keys == users.Keys
    && (forall u :: u in users ==> 0 < u < nextId)
    && (forall p :: p in credentials ==> credentials[p] in users)
    && (forall u :: u in users ==> exists p :: p in credentials && credentials[p] == u)
    && (forall p, q :: p in credentials && q in credentials && credentials[p] == credentials[q] ==> p == q)
    && (forall d :: d in devices ==> d.user in users)
  }

  lemma OneMoreRow(profiles: map<int, Profile>, outbox: seq<Events.Row>, user: int, profile: Profile)
    requires OneRowEach(profiles, outbox) && user !in profiles
    ensures OneRowEach(profiles[user := profile], outbox + [Events.Row(user, profile.nickname, false)])
  {
    var after := outbox + [Events.Row(user, profile.nickname, false)];
    forall u | u in profiles ensures exists i :: 0 <= i < |after| && after[i].user == u {
      var i :| 0 <= i < |outbox| && outbox[i].user == u;
      assert after[i].user == u;
    }
    assert after[|outbox|].user == user;
  }

  lemma OneMoreUser(users: map<int, Account>, credentials: map<string, int>, profiles: map<int, Profile>,
                    devices: map<Device, Seen>, user: int, account: Account, phone: string, profile: Profile)
    requires Consistent(users, credentials, profiles, devices, user) && phone !in credentials && user > 0
    ensures Consistent(users[user := account], credentials[phone := user], profiles[user := profile], devices, user + 1)
  {
    var creds := credentials[phone := user];
    forall u | u in users ensures exists p :: p in creds && creds[p] == u {
      var p :| p in credentials && credentials[p] == u;
      assert creds[p] == u;
    }
    assert creds[phone] == user;
  }

  class UserRepo {
    var users: map<int, Account>
    var credentials: map<string, int>
    var profiles: map<int, Profile>
    var devices: map<Device, Seen>
    var outbox: seq<Events.Row>
    var nextId: int                 // AUTO_INCREMENT; a rollback does not give numbers back

    ghost predicate Valid()
      reads this
    {
      nextId > 0 && Consistent(users, credentials, profiles, devices, nextId) && OneRowEach(profiles, outbox)
    }

    constructor ()
      ensures Valid() && users == map[] && outbox == [] && devices == map[]
    {
      users, credentials, profiles, devices, outbox, nextId := map[], map[], map[], map[], [], 1;
    }

    /** One transaction: user, credential, profile and outbox row, or none of them. */
    method CreateUser(phone: string, nickname: string, image: string, status: Status, month: string, fault: Fault)
      returns (r: Created)
      requires Valid()
      modifies this`users, this`credentials, this`profiles, this`outbox, this`nextId
      ensures Valid() && nextId >= old(nextId)
      ensures r == Conflict <==> phone in old(credentials) && fault != AtUser && fault != AtCredential
      ensures r.Created? <==> phone !in old(credentials) && fault == NoFault
      ensures r.Created? ==>
                && r.user == old(nextId) && r.user !in old(users) && nextId == old(nextId) + 1
                && users == old(users)[r.user := Account(status, month)]
                && credentials == old(credentials)[phone := r.user]
                && profiles == old(profiles)[r.user := Profile(nickname, if image == "" then None else Some(image))]
                && outbox == old(outbox) + [Events.Row(r.user, nickname, false)]
      ensures !r.Created? ==>
                users == old(users) && credentials == old(credentials) && profiles == old(profiles) && outbox == old(outbox)
    {
      if fault == AtUser {
        return Error;
      }
      var id := nextId;
      nextId := nextId + 1;
      var users1 := users[id := Account(status, month)];
      if fault == AtCredential {
        return Error;
      }
      if phone in credentials {
        return Conflict;
      }
      var credentials1 := credentials[phone := id];
      if fault == AtProfile {
        return Error;
      }
      var profiles1 := profiles[id := Profile(nickname, Nullable(image))];
      if fault == AtOutbox {
        return Error;
      }
      var outbox1 := outbox + [Events.Row(id, nickname, false)];
      if fault == AtCommit {
        return Error;
      }
      OneMoreRow(profiles, outbox, id, Profile(nickname, Nullable(image)));
      OneMoreUser(users, credentials, profiles, devices, id, Account(status, month), phone, Profile(nickname, Nullable(image)));
      users, credentials, profiles, outbox := users1, credentials1, profiles1, outbox1;
      return Created(id);
    }

    method FindByCredential(phone: string) returns (r: Found)
      requires Valid()
      ensures phone !in credentials ==> r == NotFound
      ensures phone in credentials ==> r == Found(credentials[phone], users[credentials[phone]])
    {
      if phone !in credentials {
        return NotFound;
      }
      return Found(credentials[phone], users[credentials[phone]]);
    }

    method FindByID(user: int) returns (r: Found)
      ensures r == if user in users then Found(user, users[user]) else NotFound
    {
      if user !in users {
        return NotFound;
      }
      return Found(user, users[user]);
    }

    method UpdateStatus(user: int, status: Status)
      requires Valid()
      modifies this`users
      ensures Valid() && users.Keys == old(users).Keys
      ensures user in users ==> users == old(users)[user := old(users)[user].(status := status)]
      ensures user !in users ==> users == old(users)
    {
      if user in users {
        users := users[user := users[user].(status := status)];
      }
    }

    method IsDeviceKnown(user: int, fingerprint: string) returns (known: bool)
      ensures known <==> Device(user, fingerprint) in devices
    {
      known := Device(user, fingerprint) in devices;
    }

    /** INSERT ... ON DUPLICATE KEY UPDATE; without its user the row violates a foreign key. */
    method UpsertDevice(user: int, fingerprint: string, name: string, now: nat) returns (ok: bool)
      requires Valid()
      modifies this`devices
      ensures Valid() && (ok <==> user in users)
      ensures devices == if ok then old(devices)[Device(user, fingerprint) := Seen(if name == "" then None else Some(name), now)]
                         else old(devices)
    {
      if user !in users {
        return false;
      }
      devices := devices[Device(user, fingerprint) := Seen(Nullable(name), now)];
      return true;
    }
  }

  function Nicknames(profiles: map<int, Profile>): map<int, string> {
    map u | u in profiles :: profiles[u].nickname
  }

  /** The event pipeline's picture of the database. */
  ghost predicate Pictures(s: Pipeline.System, profiles: map<int, Profile>, credentials: map<string, int>, outbox: seq<Events.Row>) {
    s.users == Nicknames(profiles) && s.phones == credentials && s.outbox == outbox
  }

  /** The pipeline's signup step, with its guards, against what CreateUser does to the tables. */
  lemma SignupPictures(s: Pipeline.System, profiles: map<int, Profile>, credentials: map<string, int>, outbox: seq<Events.Row>,
                       phone: string, user: int, profile: Profile, commits: bool)
    requires Pictures(s, profiles, credentials, outbox) && user !in profiles && profile.nickname != ""
    ensures var s' := Pipeline.Apply(s, Pipeline.Signup(phone, user, profile.nickname, commits));
            if commits && phone !in credentials then
              Pictures(s', profiles[user := profile], credentials[phone := user],
                       outbox + [Events.Row(user, profile.nickname, false)])
            else s' == s
  {
    assert Nicknames(profiles)[user := profile.nickname] == Nicknames(profiles[user := profile]);
  }

  /** Every call of CreateUser, committed, conflicting or failed, is the pipeline's signup step. */
  method CreateUserAsStep(repo: UserRepo, s: Pipeline.System, phone: string, nickname: string, image: string,
                          status: Status, month: string, fault: Fault) returns (r: Created)
    requires repo.Valid() && Pictures(s, repo.profiles, repo.credentials, repo.outbox) && nickname != ""
    modifies repo`users, repo`credentials, repo`profiles, repo`outbox, repo`nextId
    ensures repo.Valid()
    ensures Pictures(Pipeline.Apply(s, Pipeline.Signup(phone, old(repo.nextId), nickname, fault == NoFault)),
                     repo.profiles, repo.credentials, repo.outbox)
  {
    SignupPictures(s, repo.profiles, repo.credentials, repo.outbox, phone, repo.nextId, Profile(nickname, Nullable(image)),
                   fault == NoFault);
    r := repo.CreateUser(phone, nickname, image, status, month, fault);
  }

  class Limiter {
    var now: nat
    var counters: map<int, RedisCounter.Counter>

    predicate Valid()
      reads this
    {
      forall u :: u in counters ==> counters[u].count >= 1
    }

    /** How many attempts are counted against a user right now. */
    function Live(user: int): nat
      reads this
    {
      RedisCounter.Live(counters, user, now)
    }

    constructor ()
      ensures Valid() && counters == map[]
    {
      now, counters := 0, map[];
    }

    /** Counts the attempt; the error of the EXPIRE is ignored. */
    method Attempt(user: int, expires: bool) returns (ok: bool)
      requires Valid()
      modifies this
      ensures Valid() && now == old(now)
      ensures var known := user in old(counters) && (old(counters)[user].deadline.None? || now < old(counters)[user].deadline.value);
              var count := if known then old(counters)[user].count + 1 else 1;
              && old(Live(user)) == count - 1 && (ok <==> count <= 3)
              && user in counters && counters[user].count == count
              && counters[user].deadline == if known then old(counters)[user].deadline
                                            else if expires then Some(now + 600_000) else None
      ensures forall u :: u != user ==> (u in counters <==> u in old(counters)) && (u in counters ==> counters[u] == old(counters)[u])
    {
      var count := RedisCounter.Live(counters, user, now) + 1;
      counters := RedisCounter.Incremented(counters, user, now);
      if count == 1 && expires {
        counters := RedisCounter.Expiring(counters, user, now, CHALLENGE_WINDOW);
      }
      return count <= MAX_CHALLENGES;
    }

    method Reset(user: int)
      requires Valid()
      modifies this
      ensures Valid() && now == old(now) && counters == old(counters) - {user}
    {
      counters := counters - {user};
    }
  }
}
