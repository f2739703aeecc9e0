/** The `user_targets` table and `UserTargetService`: a user's latest daily
    nutrient targets, read and partially updated. */
module UserTargets {
  import opened Wrappers

  /** One target row: twelve optional nutrient amounts per day. */
  datatype UserTarget = UserTarget(
    targetId: Option<int>,
    userId: int,
    calories: Option<real>,
    protein: Option<real>,
    fiber: Option<real>,
    fat: Option<real>,
    carbs: Option<real>,
    iron: Option<real>,
    calcium: Option<real>,
    vitaminA: Option<real>,
    vitaminC: Option<real>,
    vitaminD: Option<real>,
    sodium: Option<real>,
    potassium: Option<real>,
    createdAt: Option<int>,
    updatedAt: Option<int>)

  datatype UpdateUserTargetRequest = UpdateUserTargetRequest(
    calories: Option<real>,
    protein: Option<real>,
    fiber: Option<real>,
    fat: Option<real>,
    carbs: Option<real>,
    iron: Option<real>,
    calcium: Option<real>,
    vitaminA: Option<real>,
    vitaminC: Option<real>,
    vitaminD: Option<real>,
    sodium: Option<real>,
    potassium: Option<real>)

  /** A fresh `new UserTarget()` bound to a user: every other field null. */
  function NewTarget(userId: int): UserTarget {
    UserTarget(None, userId, None, None, None, None, None, None, None, None, None, None, None, None, None, None)
  }

  /** `updateTargetFields`: the twelve nutrients, each overwritten only by a
      non-null request value; id, user and timestamps are kept. */
  function UpdateTargetFields(t: UserTarget, req: UpdateUserTargetRequest): (r: UserTarget)
    ensures r.targetId == t.targetId && r.userId == t.userId
    ensures r.createdAt == t.createdAt && r.updatedAt == t.updatedAt
    ensures r.calories == Overlay(req.calories, t.calories)
    ensures r.protein == Overlay(req.protein, t.protein)
    ensures r.fiber == Overlay(req.fiber, t.fiber)
    ensures r.fat == Overlay(req.fat, t.fat)
    ensures r.carbs == Overlay(req.carbs, t.carbs)
    ensures r.iron == Overlay(req.iron, t.iron)
    ensures r.calcium == Overlay(req.calcium, t.calcium)
    ensures r.vitaminA == Overlay(req.vitaminA, t.vitaminA)
    ensures r.vitaminC == Overlay(req.vitaminC, t.vitaminC)
    ensures r.vitaminD == Overlay(req.vitaminD, t.vitaminD)
    ensures r.sodium == Overlay(req.sodium, t.sodium)
    ensures r.potassium == Overlay(req.potassium, t.potassium)
  {
    t.(calories := Overlay(req.calories, t.calories),
       protein := Overlay(req.protein, t.protein),
       fiber := Overlay(req.fiber, t.fiber),
       fat := Overlay(req.fat, t.fat),
       carbs := Overlay(req.carbs, t.carbs),
       iron := Overlay(req.iron, t.iron),
       calcium := Overlay(req.calcium, t.calcium),
       vitaminA := Overlay(req.vitaminA, t.vitaminA),
       vitaminC := Overlay(req.vitaminC, t.vitaminC),
       vitaminD := Overlay(req.vitaminD, t.vitaminD),
       sodium := Overlay(req.sodium, t.sodium),
       potassium := Overlay(req.potassium, t.potassium))
  }

  /** Two successive updates equal one update whose fields are the later
      request's where present and the earlier one's otherwise. */
  lemma UpdateTargetFieldsCompose(t: UserTarget, a: UpdateUserTargetRequest, b: UpdateUserTargetRequest)
    ensures UpdateTargetFields(UpdateTargetFields(t, a), b)
         == UpdateTargetFields(t, UpdateUserTargetRequest(
              Overlay(b.calories, a.calories), Overlay(b.protein, a.protein),
              Overlay(b.fiber, a.fiber), Overlay(b.fat, a.fat), Overlay(b.carbs, a.carbs),
              Overlay(b.iron, a.iron), Overlay(b.calcium, a.calcium),
              Overlay(b.vitaminA, a.vitaminA), Overlay(b.vitaminC, a.vitaminC),
              Overlay(b.vitaminD, a.vitaminD), Overlay(b.sodium, a.sodium),
              Overlay(b.potassium, a.potassium)))
  {
  }

  /** The target table. `latest` maps a user to the id of the row that
      `findLatestByUserId` returns (the one created last). */
  class UserTargetStore {
    var targets: map<int, UserTarget>
    var latest: map<int, int>
    var nextId: int

    ghost predicate Valid()
      reads this
    {
      && (forall id :: id in targets ==> targets[id].targetId == Some(id) && id < nextId)
      && (forall u :: u in latest ==> latest[u] in targets && targets[latest[u]].userId == u)
      && (forall id :: id in targets ==> targets[id].userId in latest)
    }

    constructor ()
      ensures Valid() && targets == map[] && latest == map[] && nextId == 1
    {
      targets := map[];
      latest := map[];
      nextId := 1;
    }

    /** `findLatestByUserId`. */
    function FindLatestByUserId(userId: int): (r: Option<UserTarget>)
      requires Valid()
      reads this
      ensures r.Some? <==> userId in latest
      ensures r.Some? <==> exists id :: id in targets && targets[id].userId == userId
      ensures r.Some? ==> r.value.userId == userId && r.value == targets[latest[userId]]
    {
      if userId in latest then
        var id := latest[userId];
        assert id in targets && targets[id].userId == userId;
        Some(targets[id])
      else None
    }

    /** `getUserTargets`: empty for an unknown user (the target table is not
        consulted), else the latest target, if any. */
    function GetUserTargets(userIds: set<int>, userId: int): (r: Option<UserTarget>)
      requires Valid()
      reads this
      ensures userId !in userIds ==> r.None?
      ensures userId in userIds ==> r == FindLatestByUserId(userId)
    {
      if userId !in userIds then None else FindLatestByUserId(userId)
    }

    /** `updateUserTargets`: empty and no write for an unknown user; otherwise
        the latest target is updated in place, or a new target bound to the user
        is created, and the saved target is returned. An updated row that the
        merge changed gets `updatedAt` from the `@PreUpdate` callback at flush
        time `now`; an unchanged one is not written and keeps its stamp. */
    method UpdateUserTargets(userIds: set<int>, userId: int, req: UpdateUserTargetRequest, now: int)
      returns (r: Option<UserTarget>)
      requires Valid()
      modifies this
      ensures Valid()
      ensures userId !in userIds ==>
                r.None? && targets == old(targets) && latest == old(latest) && nextId == old(nextId)
      ensures userId in userIds && userId in old(latest) ==>
                var stored := old(targets)[old(latest)[userId]];
                var merged := UpdateTargetFields(stored, req);
                && r == Some(if merged == stored then merged else merged.(updatedAt := Some(now)))
                && targets == old(targets)[old(latest)[userId] := r.value]
                && latest == old(latest) && nextId == old(nextId)
      ensures userId in userIds && userId !in old(latest) ==>
                && r == Some(UpdateTargetFields(NewTarget(userId), req).(
                             targetId := Some(old(nextId)), createdAt := Some(now), updatedAt := Some(now)))
                && targets == old(targets)[old(nextId) := r.value]
                && latest == old(latest)[userId := old(nextId)]
                && nextId == old(nextId) + 1
      ensures r.Some? ==> r.value.userId == userId && FindLatestByUserId(userId) == r
    {
      if userId !in userIds {
        return None;
      }
      if userId in latest {
        var id := latest[userId];
        var target := UpdateTargetFields(targets[id], req);
        if target != targets[id] {
          target := target.(updatedAt := Some(now));
        }
        targets := targets[id := target];
        r := Some(target);
      } else {
        var target := UpdateTargetFields(NewTarget(userId), req);
        // persisting a new row assigns its id and stamps both timestamps
        target := target.(targetId := Some(nextId), createdAt := Some(now), updatedAt := Some(now));
        targets := targets[nextId := target];
        latest := latest[userId := nextId];
        nextId := nextId + 1;
        r := Some(target);
      }
    }
  }
}
