/**
 * The dashboard's state: the persisted user registry, the session, the persisted
 * per-user contract lists, the contract list loaded for the session, and the plan
 * awaiting checkout. Each method is one handler of the `App` component.
 */
module App {
  import opened Wrappers
  import opened Plans
  import opened Ledger
  import opened Accounts

  /** What `startMining` did. */
  datatype StartOutcome = NotSignedIn | UnknownPlan | Started(contract: Contract) | CheckoutOpened(plan: Plan)

  /** `loadUserMining`: the stored list of the session's user replaces the loaded one
      when the user has a non-empty id and a stored list; otherwise nothing changes. */
  function Reload(session: Option<User>, storage: map<string, seq<Contract>>, loaded: seq<Contract>): seq<Contract> {
    if session.Some? && session.value.id != "" && session.value.id in storage then storage[session.value.id]
    else loaded
  }

  /** The stored list of `userId`, or the empty list when none is stored. */
  function StoredFor(storage: map<string, seq<Contract>>, userId: string): seq<Contract> {
    if userId in storage then storage[userId] else []
  }

  class Store {
    /** The registry under the `users` key. */
    var users: seq<User>
    /** The signed-in user; the `currentUser` key always holds the same value. */
    var currentUser: Option<User>
    /** The lists under the `mining_<userId>` keys, indexed by user id. */
    var storage: map<string, seq<Contract>>
    /** The in-memory `userMining` list the dashboard renders. */
    var userMining: seq<Contract>
    /** The plan whose checkout dialog is open. */
    var checkoutPlan: Option<Plan>

    /** Start-up: the persisted session is restored and its contracts loaded. */
    constructor Restore(users0: seq<User>, session: Option<User>, storage0: map<string, seq<Contract>>)
      ensures users == users0 && currentUser == session && storage == storage0
      ensures userMining == Reload(session, storage0, []) && checkoutPlan.None?
    {
      users, currentUser, storage := users0, session, storage0;
      userMining := Reload(session, storage0, []);
      checkoutPlan := None;
    }

    method LoadUserMining()
      modifies this`userMining
      ensures userMining == Reload(currentUser, storage, old(userMining))
    {
      if currentUser.Some? && currentUser.value.id != "" && currentUser.value.id in storage {
        userMining := storage[currentUser.value.id];
      }
    }

    /** `handleAuth` in sign-up mode. */
    method SignUp(username: string, email: string, password: string, confirmPassword: string, freshId: string, now: int)
      returns (r: Result<User, AuthError>)
      modifies this
      ensures storage == old(storage) && checkoutPlan == old(checkoutPlan)
      ensures password != confirmPassword ==>
        r == Failure(PasswordMismatch) && users == old(users) && currentUser == old(currentUser) && userMining == old(userMining)
      ensures password == confirmPassword && FindClash(old(users), email, username).Some? ==>
        r == Failure(AccountExists) && users == old(users) && currentUser == old(currentUser) && userMining == old(userMining)
      ensures password == confirmPassword && FindClash(old(users), email, username).None? ==>
        && r == Success(NewUser(freshId, username, email, now))
        && users == old(users) + [r.value]
        && currentUser == Some(r.value)
        && userMining == Reload(currentUser, storage, old(userMining))
      ensures AccountsUnique(old(users)) ==> AccountsUnique(users)
    {
      if password != confirmPassword {
        return Failure(PasswordMismatch);
      }
      if FindClash(users, email, username).Some? {
        return Failure(AccountExists);
      }
      var u := NewUser(freshId, username, email, now);
      if AccountsUnique(users) {
        SignUpKeepsUnique(users, u);
      }
      users := users + [u];
      currentUser := Some(u);
      LoadUserMining();
      r := Success(u);
    }

    /** `handleAuth` in sign-in mode: the password is not consulted. */
    method SignIn(identifier: string, password: string) returns (r: Result<User, AuthError>)
      modifies this
      ensures users == old(users) && storage == old(storage) && checkoutPlan == old(checkoutPlan)
      ensures FindUser(users, identifier).None? ==>
        r == Failure(UserNotFound) && currentUser == old(currentUser) && userMining == old(userMining)
      ensures FindUser(users, identifier).Some? ==>
        && r == Success(FindUser(users, identifier).value)
        && currentUser == Some(r.value)
        && userMining == Reload(currentUser, storage, old(userMining))
    {
      var found := FindUser(users, identifier);
      if found.None? {
        return Failure(UserNotFound);
      }
      currentUser := found;
      LoadUserMining();
      r := Success(found.value);
    }

    /** `handleSignOut`: the session and the loaded list are cleared, nothing persisted is. */
    method SignOut()
      modifies this
      ensures currentUser.None? && userMining == []
      ensures users == old(users) && storage == old(storage) && checkoutPlan == old(checkoutPlan)
    {
      currentUser := None;
      userMining := [];
    }

    /** Appends `c` to the stored list of `userId` and reloads the session's list. */
    method AppendContract(userId: string, c: Contract)
      modifies this`storage, this`userMining
      ensures storage == old(storage)[userId := StoredFor(old(storage), userId) + [c]]
      ensures userMining == Reload(currentUser, storage, old(userMining))
    {
      storage := storage[userId := StoredFor(storage, userId) + [c]];
      LoadUserMining();
    }

    /** `startMining`: a free plan starts at once, a paid one only opens its checkout. */
    method StartMining(planId: PlanId, freshId: string, now: int) returns (o: StartOutcome)
      modifies this
      ensures users == old(users) && currentUser == old(currentUser)
      ensures currentUser.None? || FindPlan(MiningPlans, planId).None? ==>
        && o == (if currentUser.None? then NotSignedIn else UnknownPlan)
        && storage == old(storage) && userMining == old(userMining) && checkoutPlan == old(checkoutPlan)
      ensures currentUser.Some? && FindPlan(MiningPlans, planId).Some? && FindPlan(MiningPlans, planId).value.price == 0.0 ==>
        var p, uid := FindPlan(MiningPlans, planId).value, currentUser.value.id;
        && o == Started(NewContract(freshId, p, uid, now))
        && storage == old(storage)[uid := StoredFor(old(storage), uid) + [o.contract]]
        && userMining == Reload(currentUser, storage, old(userMining))
        && checkoutPlan == old(checkoutPlan)
      ensures currentUser.Some? && FindPlan(MiningPlans, planId).Some? && FindPlan(MiningPlans, planId).value.price != 0.0 ==>
        && o == CheckoutOpened(FindPlan(MiningPlans, planId).value)
        && checkoutPlan == Some(o.plan)
        && storage == old(storage) && userMining == old(userMining)
    {
      if currentUser.None? {
        return NotSignedIn;
      }
      var plan := FindPlan(MiningPlans, planId);
      if plan.None? {
        return UnknownPlan;
      }
      var p := plan.value;
      if p.price == 0.0 {
        var c := NewContract(freshId, p, currentUser.value.id, now);
        AppendContract(currentUser.value.id, c);
        return Started(c);
      }
      checkoutPlan := Some(p);
      o := CheckoutOpened(p);
    }

    /** `handleCheckout` once the simulated payment delay is over: the contract for the
        plan under checkout is appended and the checkout closes. */
    method HandleCheckout(freshId: string, now: int) returns (o: Option<Contract>)
      modifies this
      ensures users == old(users) && currentUser == old(currentUser)
      ensures old(checkoutPlan).None? || currentUser.None? ==>
        o.None? && storage == old(storage) && userMining == old(userMining) && checkoutPlan == old(checkoutPlan)
      ensures old(checkoutPlan).Some? && currentUser.Some? ==>
        var uid := currentUser.value.id;
        && o == Some(NewContract(freshId, old(checkoutPlan).value, uid, now))
        && storage == old(storage)[uid := StoredFor(old(storage), uid) + [o.value]]
        && userMining == Reload(currentUser, storage, old(userMining))
        && checkoutPlan.None?
    {
      if checkoutPlan.None? || currentUser.None? {
        return None;
      }
      var c := NewContract(freshId, checkoutPlan.value, currentUser.value.id, now);
      AppendContract(currentUser.value.id, c);
      checkoutPlan := None;
      o := Some(c);
    }

    /** One firing of the accrual interval. The interval exists only while a user with an
        id is signed in and the loaded list is non-empty; it ticks the stored list and
        writes the result back to the store and to the loaded list. */
    method AccrueTick()
      modifies this
      ensures users == old(users) && currentUser == old(currentUser) && checkoutPlan == old(checkoutPlan)
      ensures
        if currentUser.Some? && currentUser.value.id != "" && |old(userMining)| > 0 && currentUser.value.id in old(storage) then
          var uid := currentUser.value.id;
          && uid in storage && storage == old(storage)[uid := storage[uid]]
          && Ticked(MiningPlans, old(storage)[uid], storage[uid])
          && userMining == storage[uid]
        else
          storage == old(storage) && userMining == old(userMining)
    {
      if currentUser.None? || currentUser.value.id == "" || |userMining| == 0 {
        return;
      }
      var uid := currentUser.value.id;
      if uid !in storage {
        return;
      }
      var updated := TickList(MiningPlans, storage[uid]);
      storage := storage[uid := updated];
      userMining := updated;
    }
  }
}
