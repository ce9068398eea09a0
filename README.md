# Discourse: reviewable-count fan-out, generic onebox selection, notification components

This project models three small pieces of Discourse in Dafny and proves properties about them.

1. **`Jobs::NotifyReviewable`.** When a reviewable is created, the job publishes reviewable
   counts on `/reviewable_counts`. The job's own Ruby source is not part of this model. Its
   behaviour is modelled consistently with spec/jobs/notify_reviewable_spec.rb, which pins
   the following; where the spec file leaves a choice open, "## Left out" names it:
   - a reviewable is *visible* when its priority is at or above the visibility threshold;
   - admins count every visible reviewable;
   - moderators count the visible ones that are `reviewable_by_moderator`;
   - a member of the reviewable's group counts the visible ones owned by that group;
   - each user is addressed in at most one role, with admin first, then moderator, then group
     member;
   - group members are addressed only with `enable_category_group_moderation` on;
   - with `enable_revamped_user_menu` on, every recipient gets a message of its own that also
     carries `unseen_reviewable_count`, the counted reviewables newer than its
     `last_seen_reviewable_id`;
   - otherwise admins and moderators each share one message.

   `NotifyReviewable` holds the rules. The class `ReviewQueue` is the fabricated store plus
   the published log. `NotifyReviewableScenarios` states every example of the spec file as the
   exact list of messages it publishes. The first example is also run step by step against the
   store.
2. **`Onebox::Engine::WhitelistedGenericOnebox`** (lib/onebox/engine/whitelisted_generic_onebox.rb).
   - `OneboxUrl` models which URLs the engine claims: `host_matches`, `probable_wordpress`,
     `probable_discourse` and `===`. The three regular expressions are written as string
     predicates. The Discourse pattern is also given as a parser and a renderer, with
     soundness and round-trip lemmas.
   - `OneboxHtml` models which markup is rendered: the predicates, `generic_html`,
     `placeholder_html`, the source choice of `image_html` and `video_html`, and the
     `http://` → `https://` rewrite of `rewrite_https`.
   - `OneboxSettings` models the class-level memoised lists `whitelist`, `rewrites` and
     `html_providers` as a class with getters and setters.
3. **`notification.js`** (app/assets/javascripts/discourse/app/models/notification.js). This is
   the module-level dictionary from notification type names to user-menu components. It has a
   default item, `registerComponentForType`, which changes the dictionary in place, and
   `resetCustomComponents`. It is the class `ComponentRegistry` in `NotificationComponents`.

`Text` holds the string helpers (digits, prefixes, suffixes, substring search). `Wrappers`
holds `Option`.

## Model

| member | source | states |
|---|---|---|
| NotifyReviewable.CountsFor | spec/jobs/notify_reviewable_spec.rb:43-49 | Nothing below the visibility threshold counts for anyone. Admins count exactly the visible reviewables. What a group counts is owned by one of its groups. |
| NotifyReviewable.Count | spec/jobs/notify_reviewable_spec.rb:43-49 | A count never exceeds the number of queued reviewables. |
| NotifyReviewable.CountExtremes | spec/jobs/notify_reviewable_spec.rb:43-49 | A count is 0 iff no reviewable of the queue counts for the audience, and it equals the queue length iff every one does. |
| NotifyReviewable.UnseenCount | spec/jobs/notify_reviewable_spec.rb:125-131 | The unseen count never exceeds the reviewable count of the same audience. |
| NotifyReviewable.UnseenZeroIff | spec/jobs/notify_reviewable_spec.rb:129-131 | The unseen count is 0 iff every counted reviewable is at or below the user's watermark. |
| NotifyReviewable.NoWatermarkUnseenIsCount | spec/jobs/notify_reviewable_spec.rb:154-160 | Without a `last_seen_reviewable_id` the unseen count equals the reviewable count. |
| NotifyReviewable.UpToDateSeesNothingNew | spec/jobs/notify_reviewable_spec.rb:119-131 | A watermark at or past every id in the queue leaves an unseen count of 0. |
| NotifyReviewable.CountAntitoneInThreshold | spec/jobs/notify_reviewable_spec.rb:64-101 | Raising the visibility threshold never raises a count. |
| NotifyReviewable.CountAtMostAdminCount | spec/jobs/notify_reviewable_spec.rb:43-49 | No audience counts more reviewables than the admins do. |
| NotifyReviewable.BelowThresholdCountsNothing | spec/jobs/notify_reviewable_spec.rb:64-101 | When every reviewable is below the visibility threshold, every audience counts 0. |
| NotifyReviewable.Addressed | spec/jobs/notify_reviewable_spec.rb:21-49 | An admin is addressed, and only as an admin. Moderators are addressed as moderators only for a reviewable by moderators. Only staff and, with group moderation on, members of the reviewable's group are ever addressed. |
| NotifyReviewable.AtMostOneRole | spec/jobs/notify_reviewable_spec.rb:43-49 | A user is addressed in at most one role, and an admin only as admin. |
| NotifyReviewable.Recipients | spec/jobs/notify_reviewable_spec.rb:21-24 | The recipients in a role are never more than the users. |
| NotifyReviewable.RecipientsMembers | spec/jobs/notify_reviewable_spec.rb:21-24 | A user is a recipient in a role iff it is one of the users and is addressed in that role. |
| NotifyReviewable.NobodyAddressed | spec/jobs/notify_reviewable_spec.rb:221-230 | When nobody is addressed in a role, that role's recipient list is empty. |
| NotifyReviewable.Ids | spec/jobs/notify_reviewable_spec.rb:21 | One user id per user. |
| NotifyReviewable.IdsIndex | spec/jobs/notify_reviewable_spec.rb:21 | The k-th id is the k-th user's id. |
| NotifyReviewable.IdsMembership | spec/jobs/notify_reviewable_spec.rb:214-216 | An id is in the id list iff some listed user has it. |
| NotifyReviewable.PersonalMessage | spec/jobs/notify_reviewable_spec.rb:125-131 | A personal message is addressed to its user alone and carries the reviewable count of the user's audience. It carries an unseen count iff the revamped menu is on, and that count is the user's unseen count. |
| NotifyReviewable.PersonalMessages | spec/jobs/notify_reviewable_spec.rb:123 | One personal message per recipient. |
| NotifyReviewable.PersonalMessagesIndex | spec/jobs/notify_reviewable_spec.rb:123-131 | The k-th personal message is the k-th recipient's. |
| NotifyReviewable.BatchMessage | spec/jobs/notify_reviewable_spec.rb:31-35 | The legacy class message is empty iff the class is, and otherwise is one message to all of its ids with the class's count and no unseen count. |
| NotifyReviewable.Find | spec/jobs/notify_reviewable_spec.rb:19 | A found reviewable is in the queue and has the requested id. When none is found, no reviewable of the queue has that id. |
| NotifyReviewable.FindFirst | spec/jobs/notify_reviewable_spec.rb:19 | The reviewable found is the first of the queue with that id. |
| NotifyReviewable.FindUnique | spec/jobs/notify_reviewable_spec.rb:17-19 | In a queue of increasing ids, the job finds a reviewable by its id exactly when it is queued. |
| NotifyReviewable.Run | spec/jobs/notify_reviewable_spec.rb:18-20 | A missing reviewable publishes nothing. Every published message has at least one recipient, and carries an unseen count exactly when the revamped menu is on. |
| NotifyReviewable.FindNewest | spec/jobs/notify_reviewable_spec.rb:17-19 | A reviewable with an id above every queued one is the one the job finds once it is appended. |
| NotifyReviewable.RevampedRunShape | spec/jobs/notify_reviewable_spec.rb:170-204 | A revamped run is the admins', then the moderators', then the group members' personal messages. |
| NotifyReviewable.PolicyMoot | spec/jobs/notify_reviewable_spec.rb:39-49 | When every group-owned reviewable is also by moderators, a run does not depend on whether group items need `reviewable_by_moderator`. |
| NotifyReviewable.AllIdsOfConcat | spec/jobs/notify_reviewable_spec.rb:214 | Flattening the ids of two message lists is the concatenation of their flattenings. |
| NotifyReviewable.AllIdsOfPersonal | spec/jobs/notify_reviewable_spec.rb:214 | The personal messages of a list of users are addressed to exactly those ids, in order. |
| NotifyReviewable.AllIdsOfBatch | spec/jobs/notify_reviewable_spec.rb:214 | A batch message is addressed to exactly its class's ids. |
| NotifyReviewable.RunAddresses | spec/jobs/notify_reviewable_spec.rb:170-203 | In both menu modes, a run addresses exactly the admins, then the moderators, then the group members, in user order. |
| NotifyReviewable.RunSilentIff | spec/jobs/notify_reviewable_spec.rb:221-230 | A run publishes nothing iff the reviewable is missing or nobody is addressed in any role. |
| NotifyReviewable.RevampedMessagesArePersonal | spec/jobs/notify_reviewable_spec.rb:138-160 | With the revamped menu every message goes to exactly one user and carries an unseen count. |
| NotifyReviewable.RecipientGetsOwnCounts | spec/jobs/notify_reviewable_spec.rb:194-203 | Every addressed user receives its own personal message with its class's counts. This holds in revamped mode, and for group members in every mode. |
| NotifyReviewable.LegacyBatches | spec/jobs/notify_reviewable_spec.rb:31-35 | In legacy mode, when admins are addressed, the run starts with one message to all of them with the admin count. When moderators are addressed, the run holds one message to all of them, none an admin, with the moderator count. |
| NotifyReviewable.SameIdSameUser | spec/jobs/notify_reviewable_spec.rb:5-9 | With distinct user ids, two users with the same id are the same user. |
| NotifyReviewable.RecipientsDistinct | spec/jobs/notify_reviewable_spec.rb:45-46 | With distinct user ids, a role's recipients have distinct ids. |
| NotifyReviewable.DistinctConcat | spec/jobs/notify_reviewable_spec.rb:45-46 | Two duplicate-free lists with no common element concatenate to a duplicate-free list. |
| NotifyReviewable.RolesApart | spec/jobs/notify_reviewable_spec.rb:45-47 | With distinct user ids, no id is a recipient in two roles. |
| NotifyReviewable.NoUserMessagedTwice | spec/jobs/notify_reviewable_spec.rb:45-47 | With distinct user ids, no id is addressed twice by one run. |
| NotifyReviewable.GroupsOffAddressesStaff | spec/jobs/notify_reviewable_spec.rb:206-217 | With group moderation off and a trigger by moderators, an id is addressed iff it is an admin's or a moderator's. |
| NotifyReviewable.JoinGroup | spec/jobs/notify_reviewable_spec.rb:14 | `GroupUser.create!` adds the group to the matching user and leaves every other user as it was. |
| NotifyReviewable.SetLastSeen | spec/jobs/notify_reviewable_spec.rb:162-163 | `update!(last_seen_reviewable_id:)` sets the watermark of the matching user and leaves every other user as it was. |
| NotifyReviewable.ReviewQueue.constructor | spec/jobs/notify_reviewable_spec.rb:3-9 | The store starts valid, with no users, no reviewables and an empty log, and hands out user and reviewable ids from 1. |
| NotifyReviewable.ReviewQueue.AddUser | spec/jobs/notify_reviewable_spec.rb:5-8 | Fabricating a user appends it under the next user id, without a watermark, keeps the user ids distinct and changes nothing else. |
| NotifyReviewable.ReviewQueue.AddToGroup | spec/jobs/notify_reviewable_spec.rb:14 | Joining a group updates the users by `JoinGroup`, keeps the store valid and changes nothing else. |
| NotifyReviewable.ReviewQueue.MarkSeen | spec/jobs/notify_reviewable_spec.rb:119 | Setting a watermark updates the users by `SetLastSeen`, keeps the store valid and changes nothing else. |
| NotifyReviewable.ReviewQueue.AddReviewable | spec/jobs/notify_reviewable_spec.rb:17 | Fabricating a reviewable appends it under the next id, keeps the queued ids strictly increasing and below the next id, and makes it the one the job finds. |
| NotifyReviewable.ReviewQueue.Execute | spec/jobs/notify_reviewable_spec.rb:18-20 | Running the job returns and appends to the log exactly the run on the current store, addresses no user id twice, and changes nothing else. |
| NotifyReviewableScenarios.LegacyRecipients | spec/jobs/notify_reviewable_spec.rb:5-14 | In the first example r1 addresses only the admin. r2 addresses the admin as admin and the moderator as moderator. Neither addresses a group member. |
| NotifyReviewableScenarios.LegacyGroupRecipients | spec/jobs/notify_reviewable_spec.rb:45-49 | r3 addresses the admin as admin and the moderator as moderator. As a group member it addresses only the plain group user, not the moderator who joined the group. |
| NotifyReviewableScenarios.QueueCounts | spec/jobs/notify_reviewable_spec.rb:43-49 | Over r1..r3, admins count 3, moderators 2 and the group 1. |
| NotifyReviewableScenarios.LegacyFirstRun | spec/jobs/notify_reviewable_spec.rb:17-24 | r1 publishes exactly one message, to the admin, with count 1. |
| NotifyReviewableScenarios.LegacySecondRun | spec/jobs/notify_reviewable_spec.rb:27-36 | r2 publishes the admin message with 2 and a moderator message, without the admin, with 1. |
| NotifyReviewableScenarios.LegacyThirdRun | spec/jobs/notify_reviewable_spec.rb:39-49 | r3 publishes admin 3, moderator 2 (once only) and group user 1. |
| NotifyReviewableScenarios.HiddenThirdRun | spec/jobs/notify_reviewable_spec.rb:89-100 | With the threshold at 2.0 the same three messages are published, all with count 0. |
| NotifyReviewableScenarios.GroupsOffRun | spec/jobs/notify_reviewable_spec.rb:52-62 | With group moderation off, r3 reaches the admin and the moderator, and no message reaches the group user. |
| NotifyReviewableScenarios.NobodyToTell | spec/jobs/notify_reviewable_spec.rb:221-230 | A site with only a regular user publishes nothing. |
| NotifyReviewableScenarios.RevampedStaff | spec/jobs/notify_reviewable_spec.rb:104-115 | In the revamped example r1 addresses only admin and admin2. r2 also addresses moderator and moderator2 as moderators. Neither addresses a group member. |
| NotifyReviewableScenarios.RevampedGroupRecipients | spec/jobs/notify_reviewable_spec.rb:194-203 | r3's group recipients are the group user and user2. |
| NotifyReviewableScenarios.RevampedFirstRun | spec/jobs/notify_reviewable_spec.rb:117-131 | r1 publishes two personal admin messages: (1, unseen 1) to admin and (1, unseen 0) to admin2. |
| NotifyReviewableScenarios.SecondRunCounts | spec/jobs/notify_reviewable_spec.rb:143-160 | After r2, admins count 2 and moderators 1. Admin's unseen count is 2, admin2's is 1 and a moderator's is 1. |
| NotifyReviewableScenarios.SecondRunMessages | spec/jobs/notify_reviewable_spec.rb:138-160 | The four personal messages of r2, messaged user by user. |
| NotifyReviewableScenarios.RevampedSecondRun | spec/jobs/notify_reviewable_spec.rb:133-160 | r2 publishes exactly four messages: admin 2/2, admin2 2/1, moderator 1/1 and moderator2 1/1. |
| NotifyReviewableScenarios.ThirdRunUnseen | spec/jobs/notify_reviewable_spec.rb:175-203 | The unseen counts over r1..r3 under each watermark. |
| NotifyReviewableScenarios.ThirdRunStaffMessages | spec/jobs/notify_reviewable_spec.rb:172-192 | The admins' and moderators' personal messages for r3. |
| NotifyReviewableScenarios.ThirdRunGroupMessages | spec/jobs/notify_reviewable_spec.rb:194-203 | The group members' personal messages for r3. |
| NotifyReviewableScenarios.RevampedThirdRun | spec/jobs/notify_reviewable_spec.rb:162-204 | r3 publishes exactly six messages: admin 3/1, admin2 3/2, moderator 2/2, moderator2 2/1, user 1/1 and user2 1/1. |
| NotifyReviewableScenarios.GroupsOffStaff | spec/jobs/notify_reviewable_spec.rb:206-217 | With group moderation off there are four staff recipients and no group recipient. |
| NotifyReviewableScenarios.RevampedGroupsOffRun | spec/jobs/notify_reviewable_spec.rb:206-217 | With group moderation off, the ids addressed are exactly admin, admin2, moderator and moderator2. |
| NotifyReviewableScenarios.LegacyEitherPolicy | spec/jobs/notify_reviewable_spec.rb:39-49 | The legacy third run is the same whichever group-item policy holds. |
| NotifyReviewableScenarios.RevampedEitherPolicy | spec/jobs/notify_reviewable_spec.rb:165-204 | The revamped third run is the same whichever group-item policy holds. |
| NotifyReviewableScenarios.ModeratorJoinsGroup | spec/jobs/notify_reviewable_spec.rb:14 | After `GroupUser.create!`, the moderator belongs to the group. |
| NotifyReviewableScenarios.FabricateAndNotify | spec/jobs/notify_reviewable_spec.rb:17-20 | One fabricate-and-execute step appends the reviewable and then the job's messages to the log. |
| NotifyReviewableScenarios.LegacyFixtures | spec/jobs/notify_reviewable_spec.rb:5-14 | The store after the fixtures holds admin, moderator (in the group) and group user, with an empty queue and log. |
| NotifyReviewableScenarios.LegacyStepOne | spec/jobs/notify_reviewable_spec.rb:16-24 | Content for admins only: the log gains the admin message with count 1. |
| NotifyReviewableScenarios.LegacyStepTwo | spec/jobs/notify_reviewable_spec.rb:26-36 | Content for moderators: the log gains admin 2 and moderator 1. |
| NotifyReviewableScenarios.LegacyStepThree | spec/jobs/notify_reviewable_spec.rb:38-49 | Content for a group: the log gains admin 3, moderator 2 and group user 1. |
| NotifyReviewableScenarios.LegacyExample | spec/jobs/notify_reviewable_spec.rb:11-50 | The whole first example, against the store, publishes exactly the six messages above, in order. |
| OneboxUrl.EntryMatchIsAnchoredSuffix | lib/onebox/engine/whitelisted_generic_onebox.rb:168 | An entry matches a host iff the escaped pattern `(^\|\.)entry$` would: the entry occurs literally at the end, at the start or right after a dot. |
| OneboxUrl.HostMatches | lib/onebox/engine/whitelisted_generic_onebox.rb:167-169 | A host matches a list iff it is present and some entry matches it, so an empty list or a nil host never matches. |
| OneboxUrl.HostMatchesExamples | lib/onebox/engine/whitelisted_generic_onebox.rb:167-169 | "www.cnn.com" and "cnn.com" match `cnn.com`. "notcnn.com" and "cnnxcom" do not, and neither does a nil host. |
| OneboxUrl.WordpressFrom | lib/onebox/engine/whitelisted_generic_onebox.rb:176 | The scan from a position finds "dddd/dd/" iff it occurs at or after that position. |
| OneboxUrl.ProbableWordpress | lib/onebox/engine/whitelisted_generic_onebox.rb:175-177 | A path is a WordPress path iff it is present and holds four digits, "/", two digits and "/" somewhere. |
| OneboxUrl.WordpressExamples | lib/onebox/engine/whitelisted_generic_onebox.rb:175-177 | "/2014/05/hello-world" and "/blog/2014/05/" qualify. "/14/05/hello" and a nil path do not. |
| OneboxUrl.ParseLink | lib/onebox/engine/whitelisted_generic_onebox.rb:172 | What the topic-link reader accepts is a well-formed link and renders back to exactly the text read: a non-empty slash-free slug, a digit topic id, optional digit post number, optional query. |
| OneboxUrl.ParseRenderRoundTrip | lib/onebox/engine/whitelisted_generic_onebox.rb:172 | Every well-formed link reads back as itself. |
| OneboxUrl.DiscourseFrom | lib/onebox/engine/whitelisted_generic_onebox.rb:172 | The scan from a position finds a topic link iff some suffix starting at or after it is one. |
| OneboxUrl.ProbableDiscourse | lib/onebox/engine/whitelisted_generic_onebox.rb:171-173 | A path is a Discourse path iff it is present and some suffix of it is exactly one topic link. |
| OneboxUrl.DiscourseComplete | lib/onebox/engine/whitelisted_generic_onebox.rb:171-173 | Any text followed by a well-formed topic link is a Discourse path. |
| OneboxUrl.DiscourseSound | lib/onebox/engine/whitelisted_generic_onebox.rb:171-173 | Every Discourse path is some prefix followed by a well-formed topic link. |
| OneboxUrl.DiscourseStart | lib/onebox/engine/whitelisted_generic_onebox.rb:172 | A successful scan yields a position from which the rest of the path is a topic link. |
| OneboxUrl.EmptySlugRejected | lib/onebox/engine/whitelisted_generic_onebox.rb:172 | "/t//12" is not a topic link: the slug needs at least one character. |
| OneboxUrl.Matches | lib/onebox/engine/whitelisted_generic_onebox.rb:179-185 | For a URI, `===` holds iff the host matches an entry of the whitelist, or the path is a WordPress path, or it ends with a topic link. With an empty whitelist only the two path heuristics count. |
| OneboxHtml.OrElse | lib/onebox/engine/whitelisted_generic_onebox.rb:268 | Ruby's `a \|\| b` on possibly-nil values: `a` unless it is nil. |
| OneboxHtml.PhotostreamIsNeverImage | lib/onebox/engine/whitelisted_generic_onebox.rb:239-243 | A type mentioning "photostream" is never an image. |
| OneboxHtml.ImageTagOf | lib/onebox/engine/whitelisted_generic_onebox.rb:267-275 | `image_html` yields markup iff `image \|\| thumbnail_url` is not blank. Its source is the image whenever one is present, and the thumbnail otherwise. |
| OneboxHtml.ImageHtml | lib/onebox/engine/whitelisted_generic_onebox.rb:267-275 | `image_html` is nil exactly when `image \|\| thumbnail_url` is blank. Otherwise it is an `<img>` element whose `src` is that source. |
| OneboxHtml.EmptyImageShadowsThumbnail | lib/onebox/engine/whitelisted_generic_onebox.rb:267-269 | An empty image shadows a usable thumbnail: `has_image?` holds, yet `image_html` is nil. |
| OneboxHtml.VideoUrl | lib/onebox/engine/whitelisted_generic_onebox.rb:278 | The video URL is `video_secure_url` when that is not blank, `video` otherwise. |
| OneboxHtml.VideoTagOf | lib/onebox/engine/whitelisted_generic_onebox.rb:277-299 | `video_html` emits a `<video>` element iff the video type is "video/mp4", otherwise an iframe. Both use the video URL, title and video size. |
| OneboxHtml.VideoHtml | lib/onebox/engine/whitelisted_generic_onebox.rb:277-299 | `video_html` opens a `<video>` element with the page title for "video/mp4", and otherwise an iframe whose `src` is the video URL. |
| OneboxHtml.GenericForm | lib/onebox/engine/whitelisted_generic_onebox.rb:221-261 | `generic_html`'s branch, for each form, holds iff its predicate holds and no earlier one does: article (with text), video, image, text-only article, embed. |
| OneboxHtml.GenericHtml | lib/onebox/engine/whitelisted_generic_onebox.rb:221-227 | `generic_html` is nil iff no branch applies, or the image branch is taken and the chosen image source is blank. |
| OneboxHtml.ArticleBeatsVideo | lib/onebox/engine/whitelisted_generic_onebox.rb:222-223 | An article type with text renders the article, even with a video. |
| OneboxHtml.VideoBeatsImage | lib/onebox/engine/whitelisted_generic_onebox.rb:223-224 | A non-article page with both a video and an image renders the video. |
| OneboxHtml.EmptyImageRendersNothing | lib/onebox/engine/whitelisted_generic_onebox.rb:224 | A photo with an empty image and a usable thumbnail makes `generic_html` nil. |
| OneboxHtml.ProvidersUnread | lib/onebox/engine/whitelisted_generic_onebox.rb:255-260 | When `generic_html` does not reach the provider check of `is_embedded?`, the provider list makes no difference to it. |
| OneboxHtml.ProvidersDecide | lib/onebox/engine/whitelisted_generic_onebox.rb:255-260 | When it does reach the provider check, the page's provider name being on the list alone decides between the embed and nil. |
| OneboxHtml.ReplaceHttpLeavesNoHttp | lib/onebox/engine/whitelisted_generic_onebox.rb:217 | After the `gsub` no "http://" remains anywhere, not even across the edge of a replacement. |
| OneboxHtml.ReplaceHttpIdentity | lib/onebox/engine/whitelisted_generic_onebox.rb:217 | Text without "http://" is left unchanged by the `gsub`. |
| OneboxHtml.ReplaceHttpPastClean | lib/onebox/engine/whitelisted_generic_onebox.rb:217 | A text without "http://" in front of one that starts with "http://" is kept intact: no occurrence straddles the junction. |
| OneboxHtml.ReplaceHttpJoin | lib/onebox/engine/whitelisted_generic_onebox.rb:217 | Pieces without "http://" joined by "http://" are rewritten to the same pieces joined by "https://": every occurrence is replaced, and nothing else changes. |
| OneboxHtml.SplitOnHttp | lib/onebox/engine/whitelisted_generic_onebox.rb:217 | Every text is its pieces between the occurrences of "http://", joined by "http://". |
| OneboxHtml.ReplaceHttpSplits | lib/onebox/engine/whitelisted_generic_onebox.rb:217 | The rewrite of any text is its split on "http://" joined with "https://". |
| OneboxHtml.RewriteHttps | lib/onebox/engine/whitelisted_generic_onebox.rb:214-219 | nil stays nil. For a host on the rewrite list the html is the `gsub` rewrite and holds no "http://" afterwards. For any other host, or html without "http://", the html is returned unchanged. |
| OneboxHtml.ToHtml | lib/onebox/engine/whitelisted_generic_onebox.rb:187-189 | `to_html` is nil exactly when `generic_html` is. For a host off the rewrite list it is `generic_html`; for one on the list it holds no "http://". |
| OneboxHtml.PlaceholderHtml | lib/onebox/engine/whitelisted_generic_onebox.rb:191-196 | The source's three early returns in priority order: an article gives the article markup; otherwise an image page or video page with an image gives `image_html`; otherwise a page with text and an embed gives the article markup; otherwise `to_html`. The result is always one of these, and `to_html` for a page with neither image nor text. |
| OneboxHtml.PlaceholderShowsStillOfVideo | lib/onebox/engine/whitelisted_generic_onebox.rb:191-196 | For a non-article video with an image, the placeholder is the image while `generic_html` is the video. |
| OneboxHtml.PlaceholderAgreesOnArticles | lib/onebox/engine/whitelisted_generic_onebox.rb:191-196 | For an article the placeholder is the article markup unrewritten, and `to_html` is its https rewrite. |
| OneboxHtml.PlaceholderFallsBackToHtml | lib/onebox/engine/whitelisted_generic_onebox.rb:191-196 | When none of the three early returns applies, the placeholder equals `to_html`. |
| OneboxSettings.InEffect | lib/onebox/engine/whitelisted_generic_onebox.rb:14-16 | A memoised getter yields the stored list when one is stored, and the default otherwise. |
| OneboxSettings.HttpsHostsExample | lib/onebox/engine/whitelisted_generic_onebox.rb:163-165 | Subdomains of `https_hosts` entries are rewritten: "www.slideshare.net" matches. |
| OneboxSettings.GenericOneboxSettings.constructor | lib/onebox/engine/whitelisted_generic_onebox.rb:10-165 | Nothing is stored at first. The defaults are `default_whitelist` (its 116 domains), `https_hosts` and `default_html_providers`, as the source lists them. |
| OneboxSettings.GenericOneboxSettings.Whitelist | lib/onebox/engine/whitelisted_generic_onebox.rb:14-16 | `whitelist` returns the stored list, or stores and returns the default when nil. The other two lists are unchanged. |
| OneboxSettings.GenericOneboxSettings.SetWhitelist | lib/onebox/engine/whitelisted_generic_onebox.rb:10-12 | `whitelist=` stores its argument, nil included, and changes nothing else. |
| OneboxSettings.GenericOneboxSettings.Rewrites | lib/onebox/engine/whitelisted_generic_onebox.rb:155-157 | `rewrites` returns the stored list, or stores and returns `https_hosts` when nil. |
| OneboxSettings.GenericOneboxSettings.SetRewrites | lib/onebox/engine/whitelisted_generic_onebox.rb:159-161 | `rewrites=` stores its argument and changes nothing else. |
| OneboxSettings.GenericOneboxSettings.HtmlProviders | lib/onebox/engine/whitelisted_generic_onebox.rb:146-148 | `html_providers` returns the stored list, or stores and returns the default providers when nil. |
| OneboxSettings.GenericOneboxSettings.SetHtmlProviders | lib/onebox/engine/whitelisted_generic_onebox.rb:150-152 | `html_providers=` stores its argument and changes nothing else. |
| OneboxSettings.GenericOneboxSettings.Claims | lib/onebox/engine/whitelisted_generic_onebox.rb:179-185 | `===` classifies against the whitelist in effect and memoises that list. |
| OneboxSettings.GenericOneboxSettings.ToHtml | lib/onebox/engine/whitelisted_generic_onebox.rb:187-261 | `to_html` is `rewrite_https(generic_html)` with the provider and rewrite lists in effect. It memoises `html_providers` only when the provider check is reached, and `rewrites` only when there is html; the lists in effect stay the same. |
| NotificationComponents.CoreComponentForType | app/assets/javascripts/discourse/app/models/notification.js:4-20 | Every core type maps to a non-empty component, and no core entry sits under the key "undefined". |
| NotificationComponents.CoreTableLookups | app/assets/javascripts/discourse/app/models/notification.js:12 | The core table maps `liked` to its component and has no `plugin_type` entry. |
| NotificationComponents.TypeName | app/assets/javascripts/discourse/app/models/notification.js:38 | A numeric type is looked up under its `notificationLookup` name, or under "undefined" when it has none. |
| NotificationComponents.ComponentFor | app/assets/javascripts/discourse/app/models/notification.js:36-40 | The component is never falsy, and it is always either the default item or a registered value. |
| NotificationComponents.UnregisteredNameGetsDefault | app/assets/javascripts/discourse/app/models/notification.js:36-39 | A name with no registered component yields `DefaultItem`. |
| NotificationComponents.UnknownTypeGetsDefault | app/assets/javascripts/discourse/app/models/notification.js:37-39 | A type missing from `notificationLookup` yields `DefaultItem`, unless something truthy is registered under "undefined". |
| NotificationComponents.CoreFallsBackToDefault | app/assets/javascripts/discourse/app/models/notification.js:22-23 | With the core table, every unknown type and every non-core name yields `DefaultItem`. |
| NotificationComponents.RegisteredComponentWins | app/assets/javascripts/discourse/app/models/notification.js:25-27 | After registering `c` under `t`, a type named `t` yields `c`, over a core entry too, or the default when `c` is falsy. |
| NotificationComponents.RegisterLeavesOthers | app/assets/javascripts/discourse/app/models/notification.js:26 | Registering one name leaves the lookup of every type with another name unchanged. |
| NotificationComponents.ComponentRegistry.constructor | app/assets/javascripts/discourse/app/models/notification.js:23 | The dictionary starts as the core table. |
| NotificationComponents.ComponentRegistry.RegisterComponentForType | app/assets/javascripts/discourse/app/models/notification.js:25-27 | The dictionary gains or overrides exactly one entry. Every other key keeps its presence and its value. |
| NotificationComponents.ComponentRegistry.ResetCustomComponents | app/assets/javascripts/discourse/app/models/notification.js:29-31 | The dictionary becomes exactly the core table, whatever it held, so a second reset changes nothing. |
| NotificationComponents.ComponentRegistry.UserMenuComponent | app/assets/javascripts/discourse/app/models/notification.js:36-40 | The getter is never falsy and is `ComponentFor` on the current dictionary. |

## Left out

- The `Jobs::NotifyReviewable` source is not part of this model. The model is consistent with its spec file, and the choices the spec file leaves open are listed in the next lines.
- NotifyReviewable.CountsFor: a moderator's count holds only reviewables by moderators, so it leaves out items owned by the moderator's own groups that are not by moderators. The spec file has no such item.
- NotifyReviewable.CountsFor: a group member's count holds the reviewables owned by any of the member's groups, not only by the trigger's group. The spec file has one group only.
- NotifyReviewable.Addressed: a moderator who belongs to the trigger's group is addressed as a group member when the trigger is not by moderators. The spec file pins only the case of a trigger by moderators, where the moderator is told once, as a moderator.
- NotifyReviewable.Run: a reviewable id that is not in the queue publishes nothing. The spec file always runs the job for a reviewable it has just fabricated.
- NotifyReviewable.Settings.groupItemsNeedModerator: the spec file leaves open whether a group member's count also requires `reviewable_by_moderator`. It is a free parameter. `PolicyMoot` shows that it cannot change any run in which every group-owned reviewable is by moderators, which includes every example.
- NotifyReviewable.Run: in legacy mode the grouping of group members' messages is not pinned by the examples. The model sends one message per group member, as the revamped menu does. `LegacyBatches` fixes only the pinned part: one admin message with all admins, then one moderator message without admins.
- The ordering of messages within a run (admins, moderators, group members) is a modelling choice. The examples only look messages up by recipient.
- `MessageBus` transport and ActiveRecord persistence are not modelled. `track_publish` is the appended `published` log, and the store is plain sequences.
- NotifyReviewableScenarios: the revamped example is proved on values, as `Run` on each step's store (`RevampedFirstRun` … `RevampedThirdRun`). Only the legacy example is also run against the `ReviewQueue` class. The spec file sets admin2's watermark after fabricating r1. The model's users carry it already, which gives the same store when the job runs.
- Priorities are reals and the visibility threshold is given directly as a priority. `Reviewable.set_priorities` and the name-to-priority mapping of `reviewable_default_visibility` are not modelled.
- The Ruby regular expressions are modelled on newline-free strings (URI hosts and paths). Line-anchor behaviour of `^`/`$` after an embedded newline is not modelled.
- `===` on something that is not a URI calls `super`, which is not part of this model.
- URI parsing (`URI(@url)`) is not modelled: hosts and paths arrive already split, and parse errors are not modelled.
- `data` memoisation, `HTMLEntities` decoding and `Onebox::Helpers.truncate` are not modelled. `blank?` is nil or "".
- `article_html` (the layout template) and `embedded_html` (Nokogiri) are parameters whose text is outside this model.
- `rewrite_https`: `gsub!` rewrites the string in place. It is modelled on values, so aliasing of the html string is not captured.
- The width, height and alt attributes of `image_html` and the heredoc whitespace of `video_html` are rendered, but only the source choice and the opening of each element are proved about them.
- The object key semantics of JavaScript (`__proto__` and other inherited keys) are not modelled. Falsy components (undefined, null, "") are all "".
- NotificationComponents.CoreComponentForType: the table is given as its 11-entry literal. Its size is not stated as a separate lemma.
- The user-menu item components, the Ember tests and `widgets/error-state.js` are UI code and are not modelled.
