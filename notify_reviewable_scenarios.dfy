/** The examples of spec/jobs/notify_reviewable_spec.rb, each run stated as the exact list of
    messages it publishes. The fixtures are numbered as they are fabricated: admin 1 (also a
    moderator), moderator 2, group user 3 in group 10; for the revamped user menu also admin2 4,
    moderator2 5 and user2 6 in group 10. Reviewables r1, r2, r3 get ids 1, 2, 3. The runs are
    stated with the open group-item policy off; every group item of the examples is also by
    moderators, so by `PolicyMoot` they hold with it on as well (`LegacyEitherPolicy`, `RevampedEitherPolicy`). */
module NotifyReviewableScenarios {
  import opened Wrappers
  import opened NotifyReviewable

  function R1(): Reviewable { Reviewable(1, 0.0, false, None) }
  function R2(): Reviewable { Reviewable(2, 0.0, true, None) }
  function R3(): Reviewable { Reviewable(3, 0.0, true, Some(10)) }

  /** The queue after r1, r2 and r3 have been fabricated. */
  function Queue3(): seq<Reviewable> { [R1(), R2(), R3()] }

  /** admin, moderator (after `GroupUser.create!` into the group) and group user. */
  function LegacyUsers(): seq<User> {
    [User(1, true, true, {}, None), User(2, false, true, {10}, None), User(3, false, false, {10}, None)]
  }

  function Legacy(): Settings { Settings(0.0, true, false, false) }

  lemma LegacyRecipients(groupModeration: bool)
    ensures var u := LegacyUsers();
      Recipients(u, AdminRole, R1(), groupModeration) == [u[0]] && Recipients(u, ModeratorRole, R1(), groupModeration) == [] &&
      Recipients(u, GroupRole, R1(), groupModeration) == [] &&
      Recipients(u, AdminRole, R2(), groupModeration) == [u[0]] && Recipients(u, ModeratorRole, R2(), groupModeration) == [u[1]] &&
      Recipients(u, GroupRole, R2(), groupModeration) == []
  {
  }

  lemma LegacyGroupRecipients()
    ensures var u := LegacyUsers();
      Recipients(u, AdminRole, R3(), true) == [u[0]] && Recipients(u, ModeratorRole, R3(), true) == [u[1]] &&
      Recipients(u, GroupRole, R3(), true) == [u[2]]
  {
  }

  /** Counts over the three-item queue: every item for admins, the two items by moderators for
      moderators, the group's one item for its members. */
  lemma QueueCounts(s: Settings)
    requires s.visibilityThreshold == 0.0
    ensures Count(Queue3(), AdminAudience, s) == 3
    ensures Count(Queue3(), ModeratorAudience, s) == 2
    ensures Count(Queue3(), GroupAudience({10}), s) == 1
  {
  }

  /** "will notify users of new reviewable content": r1 reaches the admin alone with count 1. */
  lemma LegacyFirstRun()
    ensures Run(LegacyUsers(), [R1()], 1, Legacy()) == [Message([1], 1, None)]
  {
    LegacyRecipients(true);
    assert Ids([LegacyUsers()[0]]) == [1];
  }

  /** r2 reaches the admin with 2 and the moderator, in a message without the admin, with 1. */
  lemma LegacySecondRun()
    ensures Run(LegacyUsers(), [R1(), R2()], 2, Legacy()) == [Message([1], 2, None), Message([2], 1, None)]
  {
    LegacyRecipients(true);
    assert Ids([LegacyUsers()[0]]) == [1];
    assert Ids([LegacyUsers()[1]]) == [2];
  }

  /** r3 reaches the admin with 3, the moderator (also a group member) once with 2, and the group
      user with 1. */
  lemma LegacyThirdRun()
    ensures Run(LegacyUsers(), Queue3(), 3, Legacy()) ==
      [Message([1], 3, None), Message([2], 2, None), Message([3], 1, None)]
  {
    var u := LegacyUsers();
    assert Find(Queue3(), 3) == Some(R3());
    LegacyGroupRecipients();
    QueueCounts(Legacy());
    assert Ids([u[0]]) == [1];
    assert Ids([u[1]]) == [2];
    assert PersonalMessages([u[2]], GroupRole, Queue3(), Legacy()) == [Message([3], 1, None)];
  }

  /** "respects visibility": with the visibility threshold at priority 2.0 every message is still
      published, each with count 0. */
  lemma HiddenThirdRun()
    ensures Run(LegacyUsers(), Queue3(), 3, Settings(2.0, true, false, false)) ==
      [Message([1], 0, None), Message([2], 0, None), Message([3], 0, None)]
  {
    var u := LegacyUsers();
    var s := Settings(2.0, true, false, false);
    assert Find(Queue3(), 3) == Some(R3());
    LegacyGroupRecipients();
    BelowThresholdCountsNothing(Queue3(), AdminAudience, s);
    BelowThresholdCountsNothing(Queue3(), ModeratorAudience, s);
    BelowThresholdCountsNothing(Queue3(), GroupAudience({10}), s);
    assert Ids([u[0]]) == [1];
    assert Ids([u[1]]) == [2];
    assert PersonalMessages([u[2]], GroupRole, Queue3(), s) == [Message([3], 0, None)];
  }

  /** "won't notify a group when disabled": the group's reviewable reaches the admin and the
      moderator only. */
  lemma GroupsOffRun()
    ensures Run(LegacyUsers(), [Reviewable(1, 0.0, true, Some(10))], 1, Settings(0.0, false, false, false)) ==
      [Message([1], 1, None), Message([2], 1, None)]
  {
    var u := LegacyUsers();
    var s := Settings(0.0, false, false, false);
    var t := Reviewable(1, 0.0, true, Some(10));
    assert Recipients(u, AdminRole, t, false) == [u[0]];
    assert Recipients(u, ModeratorRole, t, false) == [u[1]];
    NobodyAddressed(u, GroupRole, t, false);
    assert Ids([u[0]]) == [1];
    assert Ids([u[1]]) == [2];
  }

  /** "skips sending notifications if user_ids is empty": a regular user alone is never told. */
  lemma NobodyToTell(s: Settings)
    ensures Run([User(7, false, false, {}, None)], [Reviewable(1, 0.0, true, None)], 1, s) == []
  {
    RunSilentIff([User(7, false, false, {}, None)], [Reviewable(1, 0.0, true, None)], 1, s);
  }

  // ---------------------------------------------------------------- revamped user menu

  /** The six users, with the watermarks of admin, admin2 and moderator2. */
  function RevampedUsers(adminSeen: Option<nat>, admin2Seen: Option<nat>, moderator2Seen: Option<nat>): seq<User> {
    [User(1, true, true, {}, adminSeen), User(2, false, true, {10}, None), User(3, false, false, {10}, None),
     User(4, true, true, {}, admin2Seen), User(5, false, true, {}, moderator2Seen), User(6, false, false, {10}, None)]
  }

  function Revamped(): Settings { Settings(0.0, true, true, false) }

  lemma RevampedStaff(groupModeration: bool)
    ensures var u := RevampedUsers(None, Some(1), None);
      Recipients(u, AdminRole, R1(), groupModeration) == [u[0], u[3]] && Recipients(u, ModeratorRole, R1(), groupModeration) == [] &&
      Recipients(u, GroupRole, R1(), groupModeration) == [] &&
      Recipients(u, AdminRole, R2(), groupModeration) == [u[0], u[3]] && Recipients(u, ModeratorRole, R2(), groupModeration) == [u[1], u[4]] &&
      Recipients(u, GroupRole, R2(), groupModeration) == []
  {
  }

  lemma RevampedGroupRecipients()
    ensures var u := RevampedUsers(Some(2), Some(1), Some(2));
      Recipients(u, AdminRole, R3(), true) == [u[0], u[3]] && Recipients(u, ModeratorRole, R3(), true) == [u[1], u[4]] &&
      Recipients(u, GroupRole, R3(), true) == [u[2], u[5]]
  {
  }

  /** admin2 has seen r1, so only admin has something new. */
  lemma RevampedFirstRun()
    ensures Run(RevampedUsers(None, Some(1), None), [R1()], 1, Revamped()) ==
      [Message([1], 1, Some(1)), Message([4], 1, Some(0))]
  {
    var u := RevampedUsers(None, Some(1), None);
    RevampedStaff(true);
    assert PersonalMessages([u[0], u[3]], AdminRole, [R1()], Revamped()) ==
      [Message([1], 1, Some(1)), Message([4], 1, Some(0))];
    RevampedRunShape(u, [R1()], 1, Revamped(), R1(), [u[0], u[3]], [], []);
  }

  lemma SecondRunCounts(s: Settings)
    requires s.visibilityThreshold == 0.0
    ensures Count([R1(), R2()], AdminAudience, s) == 2 && Count([R1(), R2()], ModeratorAudience, s) == 1
    ensures UnseenCount([R1(), R2()], AdminAudience, s, None) == 2
    ensures UnseenCount([R1(), R2()], AdminAudience, s, Some(1)) == 1
    ensures UnseenCount([R1(), R2()], ModeratorAudience, s, None) == 1
  {
  }

  lemma SecondRunMessages(s: Settings)
    requires s.visibilityThreshold == 0.0 && s.revampedUserMenu
    ensures var u := RevampedUsers(None, Some(1), None);
      PersonalMessages([u[0], u[3]], AdminRole, [R1(), R2()], s) == [Message([1], 2, Some(2)), Message([4], 2, Some(1))] &&
      PersonalMessages([u[1], u[4]], ModeratorRole, [R1(), R2()], s) == [Message([2], 1, Some(1)), Message([5], 1, Some(1))]
  {
    SecondRunCounts(s);
  }

  /** r2: four messages, two for the admins (2 and 2, unseen 2 and 1) and two for the moderators
      (1 and 1, unseen 1 and 1). */
  lemma RevampedSecondRun()
    ensures Run(RevampedUsers(None, Some(1), None), [R1(), R2()], 2, Revamped()) ==
      [Message([1], 2, Some(2)), Message([4], 2, Some(1)), Message([2], 1, Some(1)), Message([5], 1, Some(1))]
  {
    var u := RevampedUsers(None, Some(1), None);
    var s := Revamped();
    RevampedStaff(true);
    SecondRunMessages(s);
    RevampedRunShape(u, [R1(), R2()], 2, s, R2(), [u[0], u[3]], [u[1], u[4]], []);
  }

  lemma ThirdRunUnseen(s: Settings)
    requires s.visibilityThreshold == 0.0
    ensures UnseenCount(Queue3(), AdminAudience, s, Some(2)) == 1
    ensures UnseenCount(Queue3(), AdminAudience, s, Some(1)) == 2
    ensures UnseenCount(Queue3(), ModeratorAudience, s, None) == 2
    ensures UnseenCount(Queue3(), ModeratorAudience, s, Some(2)) == 1
    ensures UnseenCount(Queue3(), GroupAudience({10}), s, None) == 1
  {
    QueueCounts(s);
    NoWatermarkUnseenIsCount(Queue3(), ModeratorAudience, s);
    NoWatermarkUnseenIsCount(Queue3(), GroupAudience({10}), s);
  }

  lemma ThirdRunStaffMessages(s: Settings)
    requires s.visibilityThreshold == 0.0 && s.revampedUserMenu
    ensures var u := RevampedUsers(Some(2), Some(1), Some(2));
      PersonalMessages([u[0], u[3]], AdminRole, Queue3(), s) == [Message([1], 3, Some(1)), Message([4], 3, Some(2))] &&
      PersonalMessages([u[1], u[4]], ModeratorRole, Queue3(), s) == [Message([2], 2, Some(2)), Message([5], 2, Some(1))]
  {
    QueueCounts(s);
    ThirdRunUnseen(s);
  }

  lemma ThirdRunGroupMessages(s: Settings)
    requires s.visibilityThreshold == 0.0 && s.revampedUserMenu
    ensures var u := RevampedUsers(Some(2), Some(1), Some(2));
      PersonalMessages([u[2], u[5]], GroupRole, Queue3(), s) == [Message([3], 1, Some(1)), Message([6], 1, Some(1))]
  {
    QueueCounts(s);
    ThirdRunUnseen(s);
  }

  /** After admin and moderator2 have seen r2, r3 yields six messages: admins 3 (unseen 1 and 2),
      moderators 2 (unseen 2 and 1), group users 1 (unseen 1 and 1); moderator, a group member
      too, is told once, as a moderator. */
  lemma RevampedThirdRun()
    ensures Run(RevampedUsers(Some(2), Some(1), Some(2)), Queue3(), 3, Revamped()) ==
      [Message([1], 3, Some(1)), Message([4], 3, Some(2)), Message([2], 2, Some(2)), Message([5], 2, Some(1)),
       Message([3], 1, Some(1)), Message([6], 1, Some(1))]
  {
    var u := RevampedUsers(Some(2), Some(1), Some(2));
    var s := Revamped();
    assert Find(Queue3(), 3) == Some(R3());
    RevampedGroupRecipients();
    ThirdRunStaffMessages(s);
    ThirdRunGroupMessages(s);
    RevampedRunShape(u, Queue3(), 3, s, R3(), [u[0], u[3]], [u[1], u[4]], [u[2], u[5]]);
  }

  lemma GroupsOffStaff()
    ensures var u := RevampedUsers(None, None, None);
      var t := Reviewable(1, 0.0, true, Some(10));
      Recipients(u, AdminRole, t, false) == [u[0], u[3]] && Recipients(u, ModeratorRole, t, false) == [u[1], u[4]] &&
      Recipients(u, GroupRole, t, false) == []
  {
  }

  /** "won't notify a group when disabled", revamped: the messages go to exactly the two admins
      and the two moderators. */
  lemma RevampedGroupsOffRun()
    ensures AllIds(Run(RevampedUsers(None, None, None), [Reviewable(1, 0.0, true, Some(10))], 1,
                       Settings(0.0, false, true, false))) == [1, 4, 2, 5]
  {
    var u := RevampedUsers(None, None, None);
    var q := [Reviewable(1, 0.0, true, Some(10))];
    var s := Settings(0.0, false, true, false);
    var t := q[0];
    RunAddresses(u, q, 1, s, t);
    GroupsOffStaff();
    assert Ids([u[0], u[3]]) == [1, 4];
    assert Ids([u[1], u[4]]) == [2, 5];
  }

  /** The group-item policy cannot change what the examples publish. */
  lemma LegacyEitherPolicy(b: bool)
    ensures Run(LegacyUsers(), Queue3(), 3, Legacy().(groupItemsNeedModerator := b)) ==
      [Message([1], 3, None), Message([2], 2, None), Message([3], 1, None)]
  {
    LegacyThirdRun();
    assert GroupItemsByModerators(Queue3());
    PolicyMoot(LegacyUsers(), Queue3(), 3, Legacy(), b);
  }

  lemma RevampedEitherPolicy(b: bool)
    ensures Run(RevampedUsers(Some(2), Some(1), Some(2)), Queue3(), 3, Revamped().(groupItemsNeedModerator := b)) ==
      [Message([1], 3, Some(1)), Message([4], 3, Some(2)), Message([2], 2, Some(2)), Message([5], 2, Some(1)),
       Message([3], 1, Some(1)), Message([6], 1, Some(1))]
  {
    RevampedThirdRun();
    assert GroupItemsByModerators(Queue3());
    PolicyMoot(RevampedUsers(Some(2), Some(1), Some(2)), Queue3(), 3, Revamped(), b);
  }

  // ---------------------------------------------------------------- the store, step by step

  /** `GroupUser.create!(group_id: group.id, user_id: moderator.id)` on the fabricated users. */
  lemma ModeratorJoinsGroup()
    ensures JoinGroup([User(1, true, true, {}, None), User(2, false, true, {}, None), User(3, false, false, {10}, None)], 2, 10)
      == LegacyUsers()
  {
    var u := [User(1, true, true, {}, None), User(2, false, true, {}, None), User(3, false, false, {10}, None)];
    assert u[1].groups + {10} == {10};
  }

  /** One step of an example: fabricate the next reviewable and run the job for it, which
      publishes `expected`. */
  method FabricateAndNotify(q: ReviewQueue, r: Reviewable, expected: seq<Message>)
    requires q.Valid() && q.nextId == r.id
    requires Run(q.users, q.reviewables + [r], r.id, q.settings) == expected
    modifies q
    ensures q.Valid() && q.reviewables == old(q.reviewables) + [r] && q.nextId == r.id + 1
    ensures q.users == old(q.users) && q.settings == old(q.settings)
    ensures q.published == old(q.published) + expected
  {
    var created := q.AddReviewable(r.priority, r.byModerator, r.byGroup);
    var ms := q.Execute(created.id);
  }

  /** The example's fixtures: admin, moderator and group user, with the moderator added to the
      group. */
  method LegacyFixtures() returns (q: ReviewQueue)
    ensures fresh(q) && q.Valid()
    ensures q.users == LegacyUsers() && q.settings == Legacy()
    ensures q.reviewables == [] && q.nextId == 1 && q.published == []
  {
    q := new ReviewQueue(Legacy());
    var admin := q.AddUser(true, true, {});
    var moderator := q.AddUser(false, true, {});
    var groupUser := q.AddUser(false, false, {10});
    assert q.users == [User(1, true, true, {}, None), User(2, false, true, {}, None), User(3, false, false, {10}, None)];
    q.AddToGroup(2, 10);
    ModeratorJoinsGroup();
  }

  /** Content for admins only. */
  method LegacyStepOne(q: ReviewQueue)
    requires q.Valid() && q.users == LegacyUsers() && q.settings == Legacy() && q.reviewables == [] && q.nextId == 1
    modifies q
    ensures q.Valid() && q.users == LegacyUsers() && q.settings == Legacy() && q.reviewables == [R1()] && q.nextId == 2
    ensures q.published == old(q.published) + [Message([1], 1, None)]
  {
    LegacyFirstRun();
    assert [] + [R1()] == [R1()];
    FabricateAndNotify(q, R1(), [Message([1], 1, None)]);
  }

  /** Content for moderators. */
  method LegacyStepTwo(q: ReviewQueue)
    requires q.Valid() && q.users == LegacyUsers() && q.settings == Legacy() && q.reviewables == [R1()] && q.nextId == 2
    modifies q
    ensures q.Valid() && q.users == LegacyUsers() && q.settings == Legacy() && q.reviewables == [R1(), R2()] && q.nextId == 3
    ensures q.published == old(q.published) + [Message([1], 2, None), Message([2], 1, None)]
  {
    LegacySecondRun();
    FabricateAndNotify(q, R2(), [Message([1], 2, None), Message([2], 1, None)]);
  }

  /** Content for a group. */
  method LegacyStepThree(q: ReviewQueue)
    requires q.Valid() && q.users == LegacyUsers() && q.settings == Legacy() && q.reviewables == [R1(), R2()] && q.nextId == 3
    modifies q
    ensures q.published == old(q.published) + [Message([1], 3, None), Message([2], 2, None), Message([3], 1, None)]
  {
    LegacyThirdRun();
    assert [R1(), R2()] + [R3()] == Queue3();
    FabricateAndNotify(q, R3(), [Message([1], 3, None), Message([2], 2, None), Message([3], 1, None)]);
  }

  /** "will notify users of new reviewable content" as the example runs it, against the store:
      the publish log holds the three runs in order. */
  method LegacyExample() returns (q: ReviewQueue)
    ensures q.published == [Message([1], 1, None), Message([1], 2, None), Message([2], 1, None),
                            Message([1], 3, None), Message([2], 2, None), Message([3], 1, None)]
  {
    q := LegacyFixtures();
    LegacyStepOne(q);
    LegacyStepTwo(q);
    LegacyStepThree(q);
  }
}
