/** The reviewable-count fan-out of `Jobs::NotifyReviewable#execute`, modelled consistently with its
    specification (spec/jobs/notify_reviewable_spec.rb): when a reviewable is created, every staff
    member and every moderating group member is told how many reviewables its class of reviewer
    can see, and, with the revamped user menu, how many of those it has not seen yet. */
module NotifyReviewable {
  import opened Wrappers

  datatype User = User(id: nat, admin: bool, moderator: bool, groups: set<nat>, lastSeenReviewableId: Option<nat>)

  /** `reviewable_by_moderator` and the optional `reviewable_by_group`. */
  datatype Reviewable = Reviewable(id: nat, priority: real, byModerator: bool, byGroup: Option<nat>)

  /** The site settings the job reads. `groupItemsNeedModerator` is not a site setting: the
      specification leaves open whether a group member's count also requires
      `reviewable_by_moderator`, so it is a parameter of the model, and every scenario below
      holds for both of its values. */
  datatype Settings = Settings(visibilityThreshold: real, categoryGroupModeration: bool,
                               revampedUserMenu: bool, groupItemsNeedModerator: bool)

  /** The three classes of recipient, in order of precedence. */
  datatype Role = AdminRole | ModeratorRole | GroupRole

  /** Whose view of the queue a count is taken from. */
  datatype Audience = AdminAudience | ModeratorAudience | GroupAudience(groups: set<nat>)

  /** One message on "/reviewable_counts": its `user_ids` and its data. */
  datatype Message = Message(userIds: seq<nat>, reviewableCount: nat, unseenReviewableCount: Option<nat>)

  // ---------------------------------------------------------------- counting

  /** At or above the `reviewable_default_visibility` priority. */
  predicate Visible(r: Reviewable, s: Settings) {
    r.priority >= s.visibilityThreshold
  }

  /** The reviewable is part of the count reported to this audience. */
  function CountsFor(r: Reviewable, a: Audience, s: Settings): (b: bool)
    ensures b ==> Visible(r, s)
    ensures a == AdminAudience ==> (b <==> Visible(r, s))
    ensures b && a.GroupAudience? ==> r.byGroup.Some? && r.byGroup.value in a.groups
  {
    Visible(r, s) &&
    match a
    case AdminAudience => true
    case ModeratorAudience => r.byModerator
    case GroupAudience(groups) =>
      r.byGroup.Some? && r.byGroup.value in groups && (!s.groupItemsNeedModerator || r.byModerator)
  }

  /** `reviewable_count`: the reviewables of the queue this audience can see. */
  function Count(queue: seq<Reviewable>, a: Audience, s: Settings): (n: nat)
    ensures n <= |queue|
  {
    if queue == [] then 0 else (if CountsFor(queue[0], a, s) then 1 else 0) + Count(queue[1..], a, s)
  }

  /** A count is 0 exactly when nothing in the queue counts, and full exactly when everything
      does. */
  lemma {:induction false} CountExtremes(queue: seq<Reviewable>, a: Audience, s: Settings)
    ensures Count(queue, a, s) == 0 <==> forall i :: 0 <= i < |queue| ==> !CountsFor(queue[i], a, s)
    ensures Count(queue, a, s) == |queue| <==> forall i :: 0 <= i < |queue| ==> CountsFor(queue[i], a, s)
  {
    if queue != [] {
      assert forall i :: 1 <= i < |queue| ==> queue[i] == queue[1..][i - 1];
      CountExtremes(queue[1..], a, s);
    }
  }

  /** Newer than the user's `last_seen_reviewable_id`; everything is new without one. */
  predicate Unseen(r: Reviewable, lastSeen: Option<nat>) {
    lastSeen.None? || r.id > lastSeen.value
  }

  /** `unseen_reviewable_count`: the counted reviewables the user has not seen. */
  function UnseenCount(queue: seq<Reviewable>, a: Audience, s: Settings, lastSeen: Option<nat>): (n: nat)
    ensures n <= Count(queue, a, s)
  {
    if queue == [] then 0
    else (if CountsFor(queue[0], a, s) && Unseen(queue[0], lastSeen) then 1 else 0) + UnseenCount(queue[1..], a, s, lastSeen)
  }

  /** Nothing is unseen exactly when every counted reviewable is at or below the watermark. */
  lemma {:induction false} UnseenZeroIff(queue: seq<Reviewable>, a: Audience, s: Settings, lastSeen: Option<nat>)
    ensures UnseenCount(queue, a, s, lastSeen) == 0 <==>
      forall i :: 0 <= i < |queue| ==> !(CountsFor(queue[i], a, s) && Unseen(queue[i], lastSeen))
  {
    if queue != [] {
      assert forall i :: 1 <= i < |queue| ==> queue[i] == queue[1..][i - 1];
      UnseenZeroIff(queue[1..], a, s, lastSeen);
    }
  }

  /** A user who has never opened the review queue has seen nothing. */
  lemma {:induction false} NoWatermarkUnseenIsCount(queue: seq<Reviewable>, a: Audience, s: Settings)
    ensures UnseenCount(queue, a, s, None) == Count(queue, a, s)
  {
    if queue != [] {
      NoWatermarkUnseenIsCount(queue[1..], a, s);
    }
  }

  /** A watermark at or past every id leaves nothing unseen. */
  lemma UpToDateSeesNothingNew(queue: seq<Reviewable>, a: Audience, s: Settings, lastSeen: nat)
    requires forall i :: 0 <= i < |queue| ==> queue[i].id <= lastSeen
    ensures UnseenCount(queue, a, s, Some(lastSeen)) == 0
  {
    UnseenZeroIff(queue, a, s, Some(lastSeen));
  }

  /** Raising the visibility threshold never raises a count. */
  lemma {:induction false} CountAntitoneInThreshold(queue: seq<Reviewable>, a: Audience, s: Settings, t: Settings)
    requires s.groupItemsNeedModerator == t.groupItemsNeedModerator
    requires s.visibilityThreshold <= t.visibilityThreshold
    ensures Count(queue, a, t) <= Count(queue, a, s)
  {
    if queue != [] {
      CountAntitoneInThreshold(queue[1..], a, s, t);
    }
  }

  /** Admins see every visible reviewable, so no other class counts more than they do. */
  lemma {:induction false} CountAtMostAdminCount(queue: seq<Reviewable>, a: Audience, s: Settings)
    ensures Count(queue, a, s) <= Count(queue, AdminAudience, s)
  {
    if queue != [] {
      CountAtMostAdminCount(queue[1..], a, s);
    }
  }

  /** With every reviewable below the visibility threshold, every count is 0. */
  lemma BelowThresholdCountsNothing(queue: seq<Reviewable>, a: Audience, s: Settings)
    requires forall i :: 0 <= i < |queue| ==> queue[i].priority < s.visibilityThreshold
    ensures Count(queue, a, s) == 0
  {
    CountExtremes(queue, a, s);
  }

  // ---------------------------------------------------------------- recipients

  /** Whether the job addresses `u` in `role` for the reviewable `trigger`: admins always; other
      moderators only for a reviewable by moderators; members of the reviewable's group only with
      `groupModeration` (`enable_category_group_moderation`) on, and only when not already
      addressed as admin or moderator. */
  function Addressed(u: User, role: Role, trigger: Reviewable, groupModeration: bool): (b: bool)
    ensures u.admin ==> (b <==> role == AdminRole)
    ensures b && role == ModeratorRole ==> trigger.byModerator
    ensures b ==> u.admin || u.moderator || (groupModeration && trigger.byGroup.Some? && trigger.byGroup.value in u.groups)
  {
    match role
    case AdminRole => u.admin
    case ModeratorRole => trigger.byModerator && u.moderator && !u.admin
    case GroupRole =>
      groupModeration && trigger.byGroup.Some? && trigger.byGroup.value in u.groups &&
      !u.admin && !(trigger.byModerator && u.moderator)
  }

  /** A user is addressed in at most one role; an admin only as an admin. */
  lemma AtMostOneRole(u: User, r1: Role, r2: Role, trigger: Reviewable, groupModeration: bool)
    requires Addressed(u, r1, trigger, groupModeration) && Addressed(u, r2, trigger, groupModeration)
    ensures r1 == r2
    ensures u.admin ==> r1 == AdminRole
  {
  }

  /** The users addressed in `role`, in the order of `users`. */
  function Recipients(users: seq<User>, role: Role, trigger: Reviewable, groupModeration: bool): (rs: seq<User>)
    ensures |rs| <= |users|
  {
    if users == [] then []
    else
      var rest := Recipients(users[1..], role, trigger, groupModeration);
      if Addressed(users[0], role, trigger, groupModeration) then [users[0]] + rest else rest
  }

  /** The recipients in `role` are exactly the users addressed in it. */
  lemma {:induction false} RecipientsMembers(users: seq<User>, role: Role, trigger: Reviewable, groupModeration: bool)
    ensures forall u :: u in Recipients(users, role, trigger, groupModeration) <==> u in users && Addressed(u, role, trigger, groupModeration)
  {
    if users != [] {
      RecipientsMembers(users[1..], role, trigger, groupModeration);
      assert forall u :: u in users <==> u == users[0] || u in users[1..];
    }
  }

  /** Nobody addressed in `role` leaves its recipient list empty. */
  lemma {:induction false} NobodyAddressed(users: seq<User>, role: Role, trigger: Reviewable, groupModeration: bool)
    requires forall u :: u in users ==> !Addressed(u, role, trigger, groupModeration)
    ensures Recipients(users, role, trigger, groupModeration) == []
  {
    if users != [] {
      assert forall u :: u in users[1..] ==> u in users;
      NobodyAddressed(users[1..], role, trigger, groupModeration);
    }
  }

  /** The audience whose count a user addressed in `role` is sent. */
  function AudienceOf(u: User, role: Role): Audience {
    match role
    case AdminRole => AdminAudience
    case ModeratorRole => ModeratorAudience
    case GroupRole => GroupAudience(u.groups)
  }

  function Ids(us: seq<User>): (ids: seq<nat>)
    ensures |ids| == |us|
  {
    if us == [] then [] else [us[0].id] + Ids(us[1..])
  }

  lemma {:induction false} IdsIndex(us: seq<User>)
    ensures forall k :: 0 <= k < |us| ==> Ids(us)[k] == us[k].id
  {
    if us != [] {
      IdsIndex(us[1..]);
    }
  }

  // ---------------------------------------------------------------- messages

  /** A message to one user alone with that user's counts; the unseen count only with the
      revamped user menu. */
  function PersonalMessage(u: User, role: Role, queue: seq<Reviewable>, s: Settings): (m: Message)
    ensures m.userIds == [u.id]
    ensures m.reviewableCount == Count(queue, AudienceOf(u, role), s)
    ensures s.revampedUserMenu <==> m.unseenReviewableCount.Some?
    ensures s.revampedUserMenu ==> m.unseenReviewableCount.value == UnseenCount(queue, AudienceOf(u, role), s, u.lastSeenReviewableId)
  {
    var a := AudienceOf(u, role);
    Message([u.id], Count(queue, a, s), if s.revampedUserMenu then Some(UnseenCount(queue, a, s, u.lastSeenReviewableId)) else None)
  }

  function PersonalMessages(us: seq<User>, role: Role, queue: seq<Reviewable>, s: Settings): (ms: seq<Message>)
    ensures |ms| == |us|
  {
    if us == [] then [] else [PersonalMessage(us[0], role, queue, s)] + PersonalMessages(us[1..], role, queue, s)
  }

  /** The k-th personal message is the k-th user's. */
  lemma {:induction false} PersonalMessagesIndex(us: seq<User>, role: Role, queue: seq<Reviewable>, s: Settings)
    ensures forall k :: 0 <= k < |us| ==> PersonalMessages(us, role, queue, s)[k] == PersonalMessage(us[k], role, queue, s)
  {
    if us != [] {
      PersonalMessagesIndex(us[1..], role, queue, s);
    }
  }

  /** The legacy single message to a whole class, left out when the class is empty. */
  function BatchMessage(us: seq<User>, a: Audience, queue: seq<Reviewable>, s: Settings): (ms: seq<Message>)
    ensures us == [] <==> ms == []
    ensures ms != [] ==> ms == [Message(Ids(us), Count(queue, a, s), None)]
  {
    if us == [] then [] else [Message(Ids(us), Count(queue, a, s), None)]
  }

  /** The first reviewable of the queue with this id. */
  function Find(queue: seq<Reviewable>, id: nat): (r: Option<Reviewable>)
    ensures r.Some? ==> r.value in queue && r.value.id == id
    ensures r.None? ==> forall i :: 0 <= i < |queue| ==> queue[i].id != id
  {
    if queue == [] then None
    else if queue[0].id == id then Some(queue[0])
    else Find(queue[1..], id)
  }

  /** What `Find` returns is the first reviewable of the queue with that id. */
  lemma {:induction false} FindFirst(queue: seq<Reviewable>, id: nat)
    requires Find(queue, id).Some?
    ensures exists k :: 0 <= k < |queue| && queue[k] == Find(queue, id).value && forall j :: 0 <= j < k ==> queue[j].id != id
  {
    if queue[0].id == id {
      assert queue[0] == Find(queue, id).value;
    } else {
      FindFirst(queue[1..], id);
      var k :| 0 <= k < |queue[1..]| && queue[1..][k] == Find(queue, id).value && forall j :: 0 <= j < k ==> queue[1..][j].id != id;
      assert queue[k + 1] == Find(queue, id).value;
      assert forall j :: 1 <= j < k + 1 ==> queue[j] == queue[1..][j - 1];
    }
  }

  /** The messages one `execute(reviewable_id:)` publishes, in order: admins, then moderators,
      then group members. With the revamped user menu every recipient gets a message of its own;
      otherwise admins and moderators each get one shared message. */
  function Run(users: seq<User>, queue: seq<Reviewable>, reviewableId: nat, s: Settings): (ms: seq<Message>)
    ensures Find(queue, reviewableId).None? ==> ms == []
    ensures forall k :: 0 <= k < |ms| ==> ms[k].userIds != []
    ensures forall k :: 0 <= k < |ms| ==> (ms[k].unseenReviewableCount.Some? <==> s.revampedUserMenu)
  {
    match Find(queue, reviewableId)
    case None => []
    case Some(t) =>
      var admins := Recipients(users, AdminRole, t, s.categoryGroupModeration);
      var moderators := Recipients(users, ModeratorRole, t, s.categoryGroupModeration);
      var members := Recipients(users, GroupRole, t, s.categoryGroupModeration);
      PersonalMessagesIndex(admins, AdminRole, queue, s);
      PersonalMessagesIndex(moderators, ModeratorRole, queue, s);
      PersonalMessagesIndex(members, GroupRole, queue, s);
      if s.revampedUserMenu then
        PersonalMessages(admins, AdminRole, queue, s) + (PersonalMessages(moderators, ModeratorRole, queue, s) +
          PersonalMessages(members, GroupRole, queue, s))
      else
        BatchMessage(admins, AdminAudience, queue, s) + (BatchMessage(moderators, ModeratorAudience, queue, s) +
          PersonalMessages(members, GroupRole, queue, s))
  }

  /** A revamped run is the admins', then the moderators', then the group members' personal
      messages. */
  lemma RevampedRunShape(users: seq<User>, queue: seq<Reviewable>, reviewableId: nat, s: Settings, t: Reviewable,
                         admins: seq<User>, moderators: seq<User>, members: seq<User>)
    requires s.revampedUserMenu && Find(queue, reviewableId) == Some(t)
    requires Recipients(users, AdminRole, t, s.categoryGroupModeration) == admins
    requires Recipients(users, ModeratorRole, t, s.categoryGroupModeration) == moderators
    requires Recipients(users, GroupRole, t, s.categoryGroupModeration) == members
    ensures Run(users, queue, reviewableId, s) == PersonalMessages(admins, AdminRole, queue, s) +
      (PersonalMessages(moderators, ModeratorRole, queue, s) + PersonalMessages(members, GroupRole, queue, s))
  {
  }

  /** Every reviewable owned by a group is also a reviewable by moderators. */
  predicate GroupItemsByModerators(queue: seq<Reviewable>) {
    forall i :: 0 <= i < |queue| && queue[i].byGroup.Some? ==> queue[i].byModerator
  }

  lemma {:induction false} CountPolicyMoot(queue: seq<Reviewable>, a: Audience, s: Settings, b: bool)
    requires GroupItemsByModerators(queue)
    ensures Count(queue, a, s) == Count(queue, a, s.(groupItemsNeedModerator := b))
    ensures forall w :: UnseenCount(queue, a, s, w) == UnseenCount(queue, a, s.(groupItemsNeedModerator := b), w)
  {
    if queue != [] {
      assert GroupItemsByModerators(queue[1..]) by {
        forall i | 0 <= i < |queue[1..]| && queue[1..][i].byGroup.Some?
          ensures queue[1..][i].byModerator
        {
          assert queue[1..][i] == queue[i + 1];
        }
      }
      CountPolicyMoot(queue[1..], a, s, b);
    }
  }

  lemma {:induction false} PersonalPolicyMoot(us: seq<User>, role: Role, queue: seq<Reviewable>, s: Settings, b: bool)
    requires GroupItemsByModerators(queue)
    ensures PersonalMessages(us, role, queue, s) == PersonalMessages(us, role, queue, s.(groupItemsNeedModerator := b))
  {
    if us != [] {
      CountPolicyMoot(queue, AudienceOf(us[0], role), s, b);
      PersonalPolicyMoot(us[1..], role, queue, s, b);
    }
  }

  /** Whether a group member's count also requires `reviewable_by_moderator` makes no difference
      to a run over a queue whose group items are all by moderators. */
  lemma PolicyMoot(users: seq<User>, queue: seq<Reviewable>, reviewableId: nat, s: Settings, b: bool)
    requires GroupItemsByModerators(queue)
    ensures Run(users, queue, reviewableId, s) == Run(users, queue, reviewableId, s.(groupItemsNeedModerator := b))
  {
    var t := s.(groupItemsNeedModerator := b);
    if Find(queue, reviewableId).Some? {
      var r := Find(queue, reviewableId).value;
      forall role: Role
        ensures PersonalMessages(Recipients(users, role, r, s.categoryGroupModeration), role, queue, s) ==
          PersonalMessages(Recipients(users, role, r, s.categoryGroupModeration), role, queue, t)
      {
        PersonalPolicyMoot(Recipients(users, role, r, s.categoryGroupModeration), role, queue, s, b);
      }
      CountPolicyMoot(queue, AdminAudience, s, b);
      CountPolicyMoot(queue, ModeratorAudience, s, b);
    }
  }

  // ---------------------------------------------------------------- properties of a run

  /** Every id a list of messages is addressed to, in order. */
  function AllIds(ms: seq<Message>): (ids: seq<nat>)
    ensures ms == [] ==> ids == []
  {
    if ms == [] then [] else ms[0].userIds + AllIds(ms[1..])
  }

  lemma {:induction false} AllIdsOfConcat(a: seq<Message>, b: seq<Message>)
    ensures AllIds(a + b) == AllIds(a) + AllIds(b)
  {
    if a == [] {
      assert a + b == b;
    } else {
      assert (a + b)[1..] == a[1..] + b;
      AllIdsOfConcat(a[1..], b);
    }
  }

  lemma {:induction false} AllIdsOfPersonal(us: seq<User>, role: Role, queue: seq<Reviewable>, s: Settings)
    ensures AllIds(PersonalMessages(us, role, queue, s)) == Ids(us)
  {
    if us != [] {
      var ms := PersonalMessages(us, role, queue, s);
      assert ms[1..] == PersonalMessages(us[1..], role, queue, s);
      AllIdsOfPersonal(us[1..], role, queue, s);
    }
  }

  lemma AllIdsOfBatch(us: seq<User>, a: Audience, queue: seq<Reviewable>, s: Settings)
    ensures AllIds(BatchMessage(us, a, queue, s)) == Ids(us)
  {
    if us != [] {
      var ms := BatchMessage(us, a, queue, s);
      assert ms[1..] == [];
      assert AllIds(ms) == Ids(us) + [];
    }
  }

  /** A run addresses exactly the admins, then the moderators, then the group members, in both
      modes. */
  lemma RunAddresses(users: seq<User>, queue: seq<Reviewable>, reviewableId: nat, s: Settings, t: Reviewable)
    requires Find(queue, reviewableId) == Some(t)
    ensures AllIds(Run(users, queue, reviewableId, s)) ==
      Ids(Recipients(users, AdminRole, t, s.categoryGroupModeration)) + (Ids(Recipients(users, ModeratorRole, t, s.categoryGroupModeration)) +
        Ids(Recipients(users, GroupRole, t, s.categoryGroupModeration)))
  {
    var admins := Recipients(users, AdminRole, t, s.categoryGroupModeration);
    var moderators := Recipients(users, ModeratorRole, t, s.categoryGroupModeration);
    var members := Recipients(users, GroupRole, t, s.categoryGroupModeration);
    var g := PersonalMessages(members, GroupRole, queue, s);
    AllIdsOfPersonal(members, GroupRole, queue, s);
    if s.revampedUserMenu {
      var a := PersonalMessages(admins, AdminRole, queue, s);
      var m := PersonalMessages(moderators, ModeratorRole, queue, s);
      AllIdsOfConcat(a, m + g);
      AllIdsOfConcat(m, g);
      AllIdsOfPersonal(admins, AdminRole, queue, s);
      AllIdsOfPersonal(moderators, ModeratorRole, queue, s);
    } else {
      var a := BatchMessage(admins, AdminAudience, queue, s);
      var m := BatchMessage(moderators, ModeratorAudience, queue, s);
      AllIdsOfConcat(a, m + g);
      AllIdsOfConcat(m, g);
      AllIdsOfBatch(admins, AdminAudience, queue, s);
      AllIdsOfBatch(moderators, ModeratorAudience, queue, s);
    }
  }

  /** Nothing is published when the reviewable is missing or nobody is addressed
      ("skips sending notifications if user_ids is empty"), and something is otherwise. */
  lemma RunSilentIff(users: seq<User>, queue: seq<Reviewable>, reviewableId: nat, s: Settings)
    ensures Run(users, queue, reviewableId, s) == [] <==>
      Find(queue, reviewableId).None? ||
      forall u, role :: u in users ==> !Addressed(u, role, Find(queue, reviewableId).value, s.categoryGroupModeration)
  {
    match Find(queue, reviewableId)
    case None =>
    case Some(t) =>
      var admins := Recipients(users, AdminRole, t, s.categoryGroupModeration);
      var moderators := Recipients(users, ModeratorRole, t, s.categoryGroupModeration);
      var members := Recipients(users, GroupRole, t, s.categoryGroupModeration);
      RecipientsMembers(users, AdminRole, t, s.categoryGroupModeration);
      RecipientsMembers(users, ModeratorRole, t, s.categoryGroupModeration);
      RecipientsMembers(users, GroupRole, t, s.categoryGroupModeration);
      if admins != [] {
        assert admins[0] in admins;
      } else if moderators != [] {
        assert moderators[0] in moderators;
      } else if members != [] {
        assert members[0] in members;
      } else {
        forall u, role | u in users
          ensures !Addressed(u, role, t, s.categoryGroupModeration)
        {
          RecipientsMembers(users, role, t, s.categoryGroupModeration);
          assert u !in Recipients(users, role, t, s.categoryGroupModeration);
        }
      }
  }

  /** With the revamped user menu every message goes to exactly one user and carries an unseen
      count. */
  lemma RevampedMessagesArePersonal(users: seq<User>, queue: seq<Reviewable>, reviewableId: nat, s: Settings)
    requires s.revampedUserMenu
    ensures forall m :: m in Run(users, queue, reviewableId, s) ==>
      |m.userIds| == 1 && m.unseenReviewableCount.Some?
  {
    if Find(queue, reviewableId).Some? {
      var t := Find(queue, reviewableId).value;
      forall role: Role
        ensures forall m :: m in PersonalMessages(Recipients(users, role, t, s.categoryGroupModeration), role, queue, s) ==>
          |m.userIds| == 1 && m.unseenReviewableCount.Some?
      {
        PersonalMessagesIndex(Recipients(users, role, t, s.categoryGroupModeration), role, queue, s);
      }
    }
  }

  /** Every recipient gets a message of its own carrying its class's count and, with the revamped
      user menu, its own unseen count; legacy mode does this for group members. */
  lemma RecipientGetsOwnCounts(users: seq<User>, queue: seq<Reviewable>, reviewableId: nat, s: Settings, u: User, role: Role)
    requires Find(queue, reviewableId).Some?
    requires u in users && Addressed(u, role, Find(queue, reviewableId).value, s.categoryGroupModeration)
    requires s.revampedUserMenu || role == GroupRole
    ensures PersonalMessage(u, role, queue, s) in Run(users, queue, reviewableId, s)
  {
    var t := Find(queue, reviewableId).value;
    var us := Recipients(users, role, t, s.categoryGroupModeration);
    RecipientsMembers(users, role, t, s.categoryGroupModeration);
    PersonalMessagesIndex(us, role, queue, s);
    var k :| 0 <= k < |us| && us[k] == u;
    assert PersonalMessages(us, role, queue, s)[k] == PersonalMessage(u, role, queue, s);
  }

  /** Legacy mode: one message to all admins with the admin count, then one to every other
      moderator with the moderator count. */
  lemma LegacyBatches(users: seq<User>, queue: seq<Reviewable>, reviewableId: nat, s: Settings)
    requires !s.revampedUserMenu && Find(queue, reviewableId).Some?
    ensures var t := Find(queue, reviewableId).value;
      var admins := Recipients(users, AdminRole, t, s.categoryGroupModeration);
      var moderators := Recipients(users, ModeratorRole, t, s.categoryGroupModeration);
      var ms := Run(users, queue, reviewableId, s);
      (admins != [] ==> ms[0] == Message(Ids(admins), Count(queue, AdminAudience, s), None)) &&
      (moderators != [] ==> Message(Ids(moderators), Count(queue, ModeratorAudience, s), None) in ms)
  {
  }

  predicate DistinctIds(us: seq<User>) {
    forall i, j :: 0 <= i < j < |us| ==> us[i].id != us[j].id
  }

  predicate Distinct(xs: seq<nat>) {
    forall i, j :: 0 <= i < j < |xs| ==> xs[i] != xs[j]
  }

  lemma SameIdSameUser(users: seq<User>, u: User, v: User)
    requires DistinctIds(users) && u in users && v in users && u.id == v.id
    ensures u == v
  {
    var i :| 0 <= i < |users| && users[i] == u;
    var j :| 0 <= j < |users| && users[j] == v;
    assert !(i < j) && !(j < i);
  }

  lemma {:induction false} RecipientsDistinct(users: seq<User>, role: Role, trigger: Reviewable, groupModeration: bool)
    requires DistinctIds(users)
    ensures Distinct(Ids(Recipients(users, role, trigger, groupModeration)))
  {
    if users != [] {
      var rest := Recipients(users[1..], role, trigger, groupModeration);
      assert DistinctIds(users[1..]) by {
        forall i, j | 0 <= i < j < |users[1..]|
          ensures users[1..][i].id != users[1..][j].id
        {
          assert users[1..][i] == users[i + 1] && users[1..][j] == users[j + 1];
        }
      }
      RecipientsDistinct(users[1..], role, trigger, groupModeration);
      RecipientsMembers(users[1..], role, trigger, groupModeration);
      if Addressed(users[0], role, trigger, groupModeration) {
        var ids := Ids([users[0]] + rest);
        IdsIndex([users[0]] + rest);
        IdsIndex(rest);
        forall i, j | 0 <= i < j < |ids|
          ensures ids[i] != ids[j]
        {
          if i == 0 {
            var v := ([users[0]] + rest)[j];
            assert v in rest;
            var k :| 0 <= k < |users[1..]| && users[1..][k] == v;
            assert users[k + 1] == v;
          } else {
            assert ids[i] == Ids(rest)[i - 1] && ids[j] == Ids(rest)[j - 1];
          }
        }
      }
    }
  }

  lemma DistinctConcat(x: seq<nat>, y: seq<nat>)
    requires Distinct(x) && Distinct(y)
    requires forall i, j :: 0 <= i < |x| && 0 <= j < |y| ==> x[i] != y[j]
    ensures Distinct(x + y)
  {
    forall i, j | 0 <= i < j < |x + y|
      ensures (x + y)[i] != (x + y)[j]
    {
      if j < |x| {
      } else if i >= |x| {
        assert (x + y)[i] == y[i - |x|] && (x + y)[j] == y[j - |x|];
      } else {
        assert (x + y)[j] == y[j - |x|];
      }
    }
  }

  /** Users addressed in two different roles have different ids. */
  lemma RolesApart(users: seq<User>, r1: Role, r2: Role, trigger: Reviewable, groupModeration: bool)
    requires DistinctIds(users) && r1 != r2
    ensures var x := Ids(Recipients(users, r1, trigger, groupModeration));
      var y := Ids(Recipients(users, r2, trigger, groupModeration));
      forall i, j :: 0 <= i < |x| && 0 <= j < |y| ==> x[i] != y[j]
  {
    var us := Recipients(users, r1, trigger, groupModeration);
    var vs := Recipients(users, r2, trigger, groupModeration);
    RecipientsMembers(users, r1, trigger, groupModeration);
    RecipientsMembers(users, r2, trigger, groupModeration);
    IdsIndex(us);
    IdsIndex(vs);
    forall i, j | 0 <= i < |us| && 0 <= j < |vs|
      ensures us[i].id != vs[j].id
    {
      assert us[i] in us && vs[j] in vs;
      if us[i].id == vs[j].id {
        SameIdSameUser(users, us[i], vs[j]);
        AtMostOneRole(us[i], r1, r2, trigger, groupModeration);
      }
    }
  }

  /** Nobody is told twice: with distinct user ids, no id occurs twice among a run's
      recipients. */
  lemma NoUserMessagedTwice(users: seq<User>, queue: seq<Reviewable>, reviewableId: nat, s: Settings)
    requires DistinctIds(users)
    ensures Distinct(AllIds(Run(users, queue, reviewableId, s)))
  {
    if Find(queue, reviewableId).Some? {
      var t := Find(queue, reviewableId).value;
      var a := Ids(Recipients(users, AdminRole, t, s.categoryGroupModeration));
      var m := Ids(Recipients(users, ModeratorRole, t, s.categoryGroupModeration));
      var g := Ids(Recipients(users, GroupRole, t, s.categoryGroupModeration));
      RunAddresses(users, queue, reviewableId, s, t);
      RecipientsDistinct(users, AdminRole, t, s.categoryGroupModeration);
      RecipientsDistinct(users, ModeratorRole, t, s.categoryGroupModeration);
      RecipientsDistinct(users, GroupRole, t, s.categoryGroupModeration);
      RolesApart(users, ModeratorRole, GroupRole, t, s.categoryGroupModeration);
      DistinctConcat(m, g);
      RolesApart(users, AdminRole, ModeratorRole, t, s.categoryGroupModeration);
      RolesApart(users, AdminRole, GroupRole, t, s.categoryGroupModeration);
      forall i, j | 0 <= i < |a| && 0 <= j < |m + g|
        ensures a[i] != (m + g)[j]
      {
        if j >= |m| {
          assert (m + g)[j] == g[j - |m|];
        }
      }
      DistinctConcat(a, m + g);
    }
  }

  /** With category group moderation off, a reviewable by moderators reaches exactly the admins
      and moderators ("won't notify a group when disabled"). */
  lemma GroupsOffAddressesStaff(users: seq<User>, queue: seq<Reviewable>, reviewableId: nat, s: Settings, id: nat)
    requires !s.categoryGroupModeration
    requires Find(queue, reviewableId).Some? && Find(queue, reviewableId).value.byModerator
    ensures id in AllIds(Run(users, queue, reviewableId, s)) <==>
      exists u :: u in users && u.id == id && (u.admin || u.moderator)
  {
    var t := Find(queue, reviewableId).value;
    var a := Recipients(users, AdminRole, t, s.categoryGroupModeration);
    var m := Recipients(users, ModeratorRole, t, s.categoryGroupModeration);
    var g := Recipients(users, GroupRole, t, s.categoryGroupModeration);
    RunAddresses(users, queue, reviewableId, s, t);
    NobodyAddressed(users, GroupRole, t, s.categoryGroupModeration);
    assert Ids(a) + (Ids(m) + Ids(g)) == Ids(a) + Ids(m);
    RecipientsMembers(users, AdminRole, t, s.categoryGroupModeration);
    RecipientsMembers(users, ModeratorRole, t, s.categoryGroupModeration);
    IdsMembership(a, id);
    IdsMembership(m, id);
  }

  lemma IdsMembership(us: seq<User>, id: nat)
    ensures id in Ids(us) <==> exists u :: u in us && u.id == id
  {
    IdsIndex(us);
    if id in Ids(us) {
      var k :| 0 <= k < |us| && Ids(us)[k] == id;
      assert us[k] in us;
    }
    if u :| u in us && u.id == id {
      var k :| 0 <= k < |us| && us[k] == u;
      assert Ids(us)[k] == id;
    }
  }

  // ---------------------------------------------------------------- the store

  /** `GroupUser.create!(group_id:, user_id:)`: the user with this id joins the group. */
  function JoinGroup(users: seq<User>, userId: nat, groupId: nat): (r: seq<User>)
    ensures |r| == |users|
    ensures forall k :: 0 <= k < |users| && users[k].id == userId ==>
      r[k] == users[k].(groups := users[k].groups + {groupId})
    ensures forall k :: 0 <= k < |users| && users[k].id != userId ==> r[k] == users[k]
  {
    if users == [] then []
    else
      var u := users[0];
      [if u.id == userId then u.(groups := u.groups + {groupId}) else u] + JoinGroup(users[1..], userId, groupId)
  }

  /** `update!(last_seen_reviewable_id:)` on the user with this id. */
  function SetLastSeen(users: seq<User>, userId: nat, reviewableId: nat): (r: seq<User>)
    ensures |r| == |users|
    ensures forall k :: 0 <= k < |users| && users[k].id == userId ==>
      r[k] == users[k].(lastSeenReviewableId := Some(reviewableId))
    ensures forall k :: 0 <= k < |users| && users[k].id != userId ==> r[k] == users[k]
  {
    if users == [] then []
    else
      var u := users[0];
      [if u.id == userId then u.(lastSeenReviewableId := Some(reviewableId)) else u] + SetLastSeen(users[1..], userId, reviewableId)
  }

  /** Every queued reviewable's id is below `nextId`. */
  ghost predicate IdsBelow(queue: seq<Reviewable>, nextId: nat) {
    forall i :: 0 <= i < |queue| ==> queue[i].id < nextId
  }

  /** Reviewable ids are handed out in increasing order. */
  ghost predicate IdsIncreasing(queue: seq<Reviewable>) {
    forall i, j :: 0 <= i < j < |queue| ==> queue[i].id < queue[j].id
  }

  /** A reviewable whose id is newer than every queued one is the one `execute` finds. */
  lemma {:induction false} FindNewest(queue: seq<Reviewable>, r: Reviewable)
    requires forall i :: 0 <= i < |queue| ==> queue[i].id < r.id
    ensures Find(queue + [r], r.id) == Some(r)
  {
    if queue != [] {
      assert (queue + [r])[1..] == queue[1..] + [r];
      FindNewest(queue[1..], r);
    } else {
      assert (queue + [r])[0] == r;
    }
  }

  /** In a queue of increasing ids, the job finds a queued reviewable by its id, and nothing else
      under that id. */
  lemma FindUnique(queue: seq<Reviewable>, r: Reviewable)
    requires IdsIncreasing(queue)
    ensures Find(queue, r.id) == Some(r) <==> r in queue
  {
    if r in queue {
      var k :| 0 <= k < |queue| && queue[k] == r;
      var f := Find(queue, r.id);
      if f.Some? {
        FindFirst(queue, r.id);
        var k' :| 0 <= k' < |queue| && queue[k'] == f.value && forall j :: 0 <= j < k' ==> queue[j].id != r.id;
        assert !(k < k') && !(k' < k);
      }
    }
  }

  /** The database the job reads and the message bus it publishes to. */
  class ReviewQueue {
    var users: seq<User>
    var reviewables: seq<Reviewable>
    var settings: Settings
    var published: seq<Message>
    var nextId: nat
    var nextUserId: nat

    /** Users have distinct ids, each below `nextUserId`; reviewables are queued in increasing id
        order, each below `nextId`. */
    ghost predicate Valid()
      reads this
    {
      DistinctIds(users) && (forall k :: 0 <= k < |users| ==> users[k].id < nextUserId) &&
      IdsIncreasing(reviewables) && IdsBelow(reviewables, nextId)
    }

    constructor (settings: Settings)
      ensures Valid()
      ensures this.settings == settings
      ensures users == [] && reviewables == [] && published == [] && nextId == 1 && nextUserId == 1
    {
      this.settings := settings;
      users := [];
      reviewables := [];
      published := [];
      nextId := 1;
      nextUserId := 1;
    }

    /** `Fabricate(:user)`, `Fabricate(:admin)`, `Fabricate(:moderator)`: stored under a fresh id,
        in the given groups, without a watermark. */
    method AddUser(admin: bool, moderator: bool, groups: set<nat>) returns (u: User)
      requires Valid()
      modifies this
      ensures Valid()
      ensures u == User(old(nextUserId), admin, moderator, groups, None)
      ensures users == old(users) + [u] && nextUserId == old(nextUserId) + 1
      ensures reviewables == old(reviewables) && settings == old(settings)
      ensures published == old(published) && nextId == old(nextId)
    {
      u := User(nextUserId, admin, moderator, groups, None);
      users := users + [u];
      nextUserId := nextUserId + 1;
    }

    /** `GroupUser.create!`. */
    method AddToGroup(userId: nat, groupId: nat)
      requires Valid()
      modifies this
      ensures Valid()
      ensures users == JoinGroup(old(users), userId, groupId)
      ensures reviewables == old(reviewables) && settings == old(settings)
      ensures published == old(published) && nextId == old(nextId) && nextUserId == old(nextUserId)
    {
      users := JoinGroup(users, userId, groupId);
    }

    /** `user.update!(last_seen_reviewable_id:)`. */
    method MarkSeen(userId: nat, reviewableId: nat)
      requires Valid()
      modifies this
      ensures Valid()
      ensures users == SetLastSeen(old(users), userId, reviewableId)
      ensures reviewables == old(reviewables) && settings == old(settings)
      ensures published == old(published) && nextId == old(nextId) && nextUserId == old(nextUserId)
    {
      users := SetLastSeen(users, userId, reviewableId);
    }

    /** `Fabricate(:reviewable, ...)`: queued under a fresh, larger id. */
    method AddReviewable(priority: real, byModerator: bool, byGroup: Option<nat>) returns (r: Reviewable)
      requires Valid()
      modifies this
      ensures Valid()
      ensures r == Reviewable(old(nextId), priority, byModerator, byGroup)
      ensures reviewables == old(reviewables) + [r] && nextId == old(nextId) + 1
      ensures Find(reviewables, r.id) == Some(r)
      ensures users == old(users) && settings == old(settings) && published == old(published)
      ensures nextUserId == old(nextUserId)
    {
      r := Reviewable(nextId, priority, byModerator, byGroup);
      FindNewest(reviewables, r);
      reviewables := reviewables + [r];
      nextId := nextId + 1;
    }

    /** `Jobs::NotifyReviewable.new.execute(reviewable_id:)`: publishes one run and returns what
        it published, as `MessageBus.track_publish` would capture it. */
    method Execute(reviewableId: nat) returns (messages: seq<Message>)
      requires Valid()
      modifies this
      ensures Valid()
      ensures messages == Run(users, reviewables, reviewableId, settings)
      ensures Distinct(AllIds(messages))
      ensures published == old(published) + messages
      ensures users == old(users) && reviewables == old(reviewables)
      ensures settings == old(settings) && nextId == old(nextId) && nextUserId == old(nextUserId)
    {
      messages := Run(users, reviewables, reviewableId, settings);
      NoUserMessagedTwice(users, reviewables, reviewableId, settings);
      published := published + messages;
    }
  }
}
