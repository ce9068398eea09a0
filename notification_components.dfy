/** Which user-menu component renders a notification
    (app/assets/javascripts/discourse/app/models/notification.js): a module-level dictionary from
    notification type names to component names, seeded with the core table, extended or
    overridden by plugins and reset to the core table.

    JavaScript's falsy component values (undefined, null, "") are all modelled as "". */
module NotificationComponents {

  /** `DefaultItem`, used whenever no truthy component is registered. */
  const DefaultItem: string := "user-menu/notification-item"

  /** The key a JavaScript lookup `dict[undefined]` reads: a numeric type missing from the site's
      `notificationLookup` yields undefined, which is converted to this string. */
  const UndefinedKey: string := "undefined"

  /** `coreComponentForType()`: every core type has a real component, and none sits under the
      "undefined" key. */
  function CoreComponentForType(): (table: map<string, string>)
    ensures forall t :: t in table ==> table[t] != ""
    ensures UndefinedKey !in table
  {
    map[
      "bookmark_reminder" := "user-menu/bookmark-reminder-notification-item",
      "custom" := "user-menu/custom-notification-item",
      "granted_badge" := "user-menu/granted-badge-notification-item",
      "group_mentioned" := "user-menu/group-mentioned-notification-item",
      "group_message_summary" := "user-menu/group-message-summary-notification-item",
      "invitee_accepted" := "user-menu/invitee-accepted-notification-item",
      "liked" := "user-menu/liked-notification-item",
      "liked_consolidated" := "user-menu/liked-consolidated-notification-item",
      "membership_request_accepted" := "user-menu/membership-request-accepted-notification-item",
      "membership_request_consolidated" := "user-menu/membership-request-consolidated-notification-item",
      "watching_first_post" := "user-menu/watching-first-post-notification-item"
    ]
  }

  /** Two entries of the core table the scenarios below rely on. */
  lemma CoreTableLookups()
    ensures CoreComponentForType()["liked"] == "user-menu/liked-notification-item"
    ensures "plugin_type" !in CoreComponentForType()
  {
  }

  /** The name a numeric notification type is looked up under. */
  function TypeName(notificationLookup: map<int, string>, notificationType: int): (name: string)
    ensures notificationType in notificationLookup ==> name == notificationLookup[notificationType]
    ensures notificationType !in notificationLookup ==> name == UndefinedKey
  {
    if notificationType in notificationLookup then notificationLookup[notificationType] else UndefinedKey
  }

  /** `userMenuComponent` for a given dictionary: the registered component when it is truthy,
      the default item otherwise; never a falsy value. */
  function ComponentFor(table: map<string, string>, notificationLookup: map<int, string>, notificationType: int): (c: string)
    ensures c != ""
    ensures c == DefaultItem || c in table.Values
  {
    var name := TypeName(notificationLookup, notificationType);
    if name in table && table[name] != "" then table[name] else DefaultItem
  }

  /** A name with no registered component gets the default item. */
  lemma UnregisteredNameGetsDefault(table: map<string, string>, notificationLookup: map<int, string>, notificationType: int)
    requires notificationType in notificationLookup && notificationLookup[notificationType] !in table
    ensures ComponentFor(table, notificationLookup, notificationType) == DefaultItem
  {
  }

  /** A numeric type the site does not know gets the default item, unless something truthy was
      registered under the name "undefined" (which the core table never has). */
  lemma UnknownTypeGetsDefault(table: map<string, string>, notificationLookup: map<int, string>, notificationType: int)
    requires notificationType !in notificationLookup
    requires UndefinedKey !in table || table[UndefinedKey] == ""
    ensures ComponentFor(table, notificationLookup, notificationType) == DefaultItem
  {
  }

  /** With the core table, any type whose name is not core and any unknown type gets the default. */
  lemma CoreFallsBackToDefault(notificationLookup: map<int, string>, notificationType: int)
    requires notificationType in notificationLookup ==> notificationLookup[notificationType] !in CoreComponentForType()
    ensures ComponentFor(CoreComponentForType(), notificationLookup, notificationType) == DefaultItem
  {
  }

  /** After `registerComponentForType(t, c)` the lookup for a type named `t` yields `c`, whatever was
      registered or core before; a falsy `c` yields the default item. */
  lemma RegisteredComponentWins(table: map<string, string>, notificationLookup: map<int, string>, notificationType: int,
                                t: string, c: string)
    requires TypeName(notificationLookup, notificationType) == t
    ensures ComponentFor(table[t := c], notificationLookup, notificationType) == (if c != "" then c else DefaultItem)
  {
  }

  /** Registering one name changes the lookup of no type with another name. */
  lemma RegisterLeavesOthers(table: map<string, string>, notificationLookup: map<int, string>, notificationType: int,
                             t: string, c: string)
    requires TypeName(notificationLookup, notificationType) != t
    ensures ComponentFor(table[t := c], notificationLookup, notificationType) == ComponentFor(table, notificationLookup, notificationType)
  {
  }

  /** `_componentForType` with `registerComponentForType`, `resetCustomComponents` and the
      `userMenuComponent` getter. */
  class ComponentRegistry {
    var componentForType: map<string, string>

    /** Module initialisation: `let _componentForType = coreComponentForType()`. */
    constructor ()
      ensures componentForType == CoreComponentForType()
    {
      componentForType := CoreComponentForType();
    }

    /** `registerComponentForType(notificationType, component)`: adds or overrides one entry. */
    method RegisterComponentForType(notificationType: string, component: string)
      modifies this
      ensures componentForType == old(componentForType)[notificationType := component]
      ensures forall t :: t != notificationType ==> (t in componentForType <==> t in old(componentForType))
      ensures forall t :: t != notificationType && t in componentForType ==> componentForType[t] == old(componentForType)[t]
    {
      componentForType := componentForType[notificationType := component];
    }

    /** `resetCustomComponents()`: back to exactly the core table. */
    method ResetCustomComponents()
      modifies this
      ensures componentForType == CoreComponentForType()
    {
      componentForType := CoreComponentForType();
    }

    /** `Notification.userMenuComponent` for a notification of type `notificationType` on a site
        whose `notificationLookup` is given. */
    function UserMenuComponent(notificationLookup: map<int, string>, notificationType: int): (c: string)
      reads this
      ensures c != ""
      ensures c == ComponentFor(componentForType, notificationLookup, notificationType)
    {
      ComponentFor(componentForType, notificationLookup, notificationType)
    }
  }

  /** A plugin overrides a core type and adds a new one; registering a falsy component falls back
      to the default item. */
  method RegisterScenario(registry: ComponentRegistry)
    modifies registry
  {
    var lookup := map[5 := "liked", 900 := "plugin_type"];
    registry.RegisterComponentForType("liked", "my-plugin/liked");
    registry.RegisterComponentForType("plugin_type", "my-plugin/item");
    assert registry.UserMenuComponent(lookup, 5) == "my-plugin/liked";
    assert registry.UserMenuComponent(lookup, 900) == "my-plugin/item";
    registry.RegisterComponentForType("plugin_type", "");
    assert registry.UserMenuComponent(lookup, 900) == DefaultItem;
  }

  /** A reset discards the override, a second reset changes nothing, and plugin types fall back to
      the default item again. */
  method ResetScenario(registry: ComponentRegistry)
    modifies registry
  {
    var lookup := map[5 := "liked", 900 := "plugin_type"];
    registry.RegisterComponentForType("liked", "my-plugin/liked");
    registry.ResetCustomComponents();
    var once := registry.componentForType;
    registry.ResetCustomComponents();
    assert registry.componentForType == once;
    CoreTableLookups();
    assert registry.UserMenuComponent(lookup, 5) == "user-menu/liked-notification-item";
    CoreFallsBackToDefault(lookup, 900);
    assert registry.UserMenuComponent(lookup, 900) == DefaultItem;
  }
}
