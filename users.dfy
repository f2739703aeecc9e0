/** The `users` table and `UserService`: create, look up, partial update and
    delete of user profiles. */
module Users {
  import opened Wrappers
  import opened Text

  datatype SexType = Male | Female | Other

  datatype CookingSkillLevel = Beginner | Intermediate | Advanced | Expert

  /** A user profile. Heights are centimetres and weights kilograms, both
      stored as DECIMAL(5,2); timestamps are opaque instants. */
  datatype User = User(
    userId: Option<int>,
    name: string,
    height: Option<real>,
    weight: Option<real>,
    age: Option<int>,
    sex: Option<SexType>,
    allergies: TextArray,
    dislikes: TextArray,
    budget: Option<real>,
    cookingSkillLevel: Option<CookingSkillLevel>,
    equipments: TextArray,
    createdAt: Option<int>,
    updatedAt: Option<int>)

  /** The body of a profile update; every field is optional. */
  datatype UpdateUserRequest = UpdateUserRequest(
    height: Option<real>,
    weight: Option<real>,
    age: Option<int>,
    sex: Option<SexType>,
    allergies: TextArray,
    dislikes: TextArray,
    budget: Option<real>,
    cookingSkill: Option<CookingSkillLevel>,
    equipments: TextArray)

  /** The nine-field partial merge of `updateUser`: each non-null request field
      overwrites its user field (`cookingSkill` goes to `cookingSkillLevel`). */
  function ApplyUpdate(u: User, req: UpdateUserRequest): (r: User)
    ensures r.userId == u.userId && r.name == u.name
    ensures r.createdAt == u.createdAt && r.updatedAt == u.updatedAt
    ensures r.height == Overlay(req.height, u.height)
    ensures r.weight == Overlay(req.weight, u.weight)
    ensures r.age == Overlay(req.age, u.age)
    ensures r.sex == Overlay(req.sex, u.sex)
    ensures r.allergies == Overlay(req.allergies, u.allergies)
    ensures r.dislikes == Overlay(req.dislikes, u.dislikes)
    ensures r.budget == Overlay(req.budget, u.budget)
    ensures r.cookingSkillLevel == Overlay(req.cookingSkill, u.cookingSkillLevel)
    ensures r.equipments == Overlay(req.equipments, u.equipments)
  {
    u.(height := Overlay(req.height, u.height),
       weight := Overlay(req.weight, u.weight),
       age := Overlay(req.age, u.age),
       sex := Overlay(req.sex, u.sex),
       allergies := Overlay(req.allergies, u.allergies),
       dislikes := Overlay(req.dislikes, u.dislikes),
       budget := Overlay(req.budget, u.budget),
       cookingSkillLevel := Overlay(req.cookingSkill, u.cookingSkillLevel),
       equipments := Overlay(req.equipments, u.equipments))
  }

  const EmptyUpdate := UpdateUserRequest(None, None, None, None, None, None, None, None, None)

  /** An update with every field null leaves the profile as it was. */
  lemma EmptyUpdateIsIdentity(u: User)
    ensures ApplyUpdate(u, EmptyUpdate) == u
  {
  }

  /** Applying the same update twice is the same as applying it once. */
  lemma ApplyUpdateIdempotent(u: User, req: UpdateUserRequest)
    ensures ApplyUpdate(ApplyUpdate(u, req), req) == ApplyUpdate(u, req)
  {
  }

  /** The user table, with the identity counter that numbers new rows. */
  class UserStore {
    var users: map<int, User>
    var nextId: int

    /** Each row carries its own key, and keys are below the counter. */
    ghost predicate Valid()
      reads this
    {
      forall id :: id in users ==> users[id].userId == Some(id) && id < nextId
    }

    constructor ()
      ensures Valid() && users == map[] && nextId == 1
    {
      users := map[];
      nextId := 1;
    }

    /** `findUserById` (`getUserById` returns it unchanged). */
    function FindUserById(id: int): (r: Option<User>)
      reads this
      ensures r.Some? <==> id in users
      ensures r.Some? ==> r.value == users[id]
    {
      if id in users then Some(users[id]) else None
    }

    /** `createUser`: stamps createdAt and updatedAt, then saves. A user without
        an id is inserted under a fresh id; one with an id is written at that id. */
    method CreateUser(user: User, now: int) returns (saved: User)
      requires Valid()
      requires user.userId.Some? ==> user.userId.value < nextId
      modifies this
      ensures Valid()
      ensures saved.createdAt == Some(now) && saved.updatedAt == Some(now)
      ensures saved == user.(userId := saved.userId, createdAt := Some(now), updatedAt := Some(now))
      ensures user.userId.Some? ==> saved.userId == user.userId && nextId == old(nextId)
      ensures user.userId.None? ==> saved.userId == Some(old(nextId)) && nextId == old(nextId) + 1
      ensures users == old(users)[saved.userId.value := saved]
    {
      var stamped := user.(createdAt := Some(now), updatedAt := Some(now));
      if stamped.userId.None? {
        saved := stamped.(userId := Some(nextId));
        nextId := nextId + 1;
      } else {
        saved := stamped;
      }
      users := users[saved.userId.value := saved];
    }

    /** `updateUser`: a missing user gives empty and nothing is saved; otherwise
        the partial merge is saved in place and returned. When the merge changed
        the row, the `@PreUpdate` callback stamps `updatedAt` with the flush
        time `now`; an unchanged row is not written and keeps its stamp. */
    method UpdateUser(id: int, req: UpdateUserRequest, now: int) returns (r: Option<User>)
      requires Valid()
      modifies this
      ensures Valid()
      ensures id !in old(users) ==> r.None? && users == old(users)
      ensures id in old(users) ==>
                var merged := ApplyUpdate(old(users)[id], req);
                && r == Some(if merged == old(users)[id] then merged else merged.(updatedAt := Some(now)))
                && users == old(users)[id := r.value]
      ensures nextId == old(nextId)
    {
      if id !in users {
        return None;
      }
      var updated := ApplyUpdate(users[id], req);
      if updated != users[id] {
        updated := updated.(updatedAt := Some(now));
      }
      users := users[id := updated];
      r := Some(updated);
    }

    /** `deleteUser`: true iff the user existed, and only then is it removed. */
    method DeleteUser(id: int) returns (deleted: bool)
      requires Valid()
      modifies this
      ensures Valid()
      ensures deleted <==> id in old(users)
      ensures users == old(users) - {id}
      ensures nextId == old(nextId)
    {
      deleted := id in users;
      if deleted {
        users := users - {id};
      }
    }
  }
}
