/**
 * The anonymous-session cache and client as the objects they are: stores handed
 * out by reference, cleared in place, and dropped from the slot map by `removeAll`
 * while callers may still hold them. Each method is proved against AnonymousSession.
 */
module AnonymousClients {
  import opened Prelude
  import opened AnonymousSession

  /** `makeMemoryStore`. */
  class SlotStore {
    var stored: Option<Slot>

    constructor ()
      ensures stored == None
    {
      stored := None;
    }

    method Set(slot: Slot)
      modifies this
      ensures stored == Some(slot)
    {
      stored := Some(slot);
    }

    method Remove()
      modifies this
      ensures stored == None
    {
      stored := None;
    }
  }

  class AnonymousSessionCacheManager {
    var slots: map<Key, SlotStore>
    var session: Option<Shared>
    var expired: bool

    constructor ()
      ensures Valid() && View() == Emptied() && slots == map[]
    {
      slots, session, expired := map[], None, false;
    }

    /** No two keys share a store. */
    ghost predicate Valid()
      reads this
    {
      forall k, j :: k in slots && j in slots && slots[k] == slots[j] ==> k == j
    }

    ghost function View(): Cache
      reads this, slots.Values
    {
      Cache(map k | k in slots && slots[k].stored.Some? :: slots[k].stored.value, session, expired)
    }

    method GetStore(key: Key) returns (store: SlotStore)
      requires Valid()
      modifies this`slots
      ensures Valid() && View() == old(View())
      ensures key in slots && slots[key] == store
      ensures forall k :: k in old(slots) ==> k in slots && slots[k] == old(slots)[k]
      ensures forall k :: k in slots && k !in old(slots) ==> k == key && fresh(slots[k]) && slots[k].stored == None
    {
      if key !in slots {
        var made := new SlotStore();
        slots := slots[key := made];
      }
      store := slots[key];
    }

    method SetSlot(key: Key, slot: Slot)
      requires Valid()
      modifies this`slots, slots.Values
      ensures Valid() && View() == WithSlot(old(View()), key, slot)
    {
      var store := GetStore(key);
      ghost var before := View();
      store.Set(slot);
      assert View().slots == before.slots[key := slot];
    }

    method SetSessionToken(shared: Shared)
      requires Valid()
      modifies this`session, this`expired
      ensures Valid() && View() == WithSession(old(View()), shared)
    {
      session := Some(shared);
      expired := false;
    }

    method MarkSessionExpired()
      requires Valid()
      modifies this`expired
      ensures Valid() && View() == old(View()).(expired := true)
    {
      expired := true;
    }

    /** Every store is emptied in place before the slots forget it, so a held store reads as empty. */
    method RemoveAll()
      requires Valid()
      modifies this, slots.Values
      ensures Valid() && View() == Emptied() && slots == map[]
      ensures forall store :: store in old(slots.Values) ==> store.stored == None
    {
      session := None;
      expired := false;
      var ahead := slots.Keys;
      while ahead != {}
        invariant ahead <= slots.Keys && slots == old(slots)
        invariant session == None && !expired
        invariant forall k :: k in slots && k !in ahead ==> slots[k].stored == None
        decreases |ahead|
      {
        var k :| k in ahead;
        slots[k].Remove();
        ahead := ahead - {k};
      }
      slots := map[];
    }
  }

  class AnonymousSessionApiClient {
    const cache: AnonymousSessionCacheManager

    constructor ()
      ensures fresh(cache) && cache.Valid() && cache.View() == Emptied()
    {
      cache := new AnonymousSessionCacheManager();
    }

    /** `createSession`, once the server has answered. */
    method CreateSessionAnswered(audience: Option<string>, scope: Option<string>, grant: Grant)
      requires cache.Valid()
      modifies cache, cache.slots.Values
      ensures cache.Valid() && cache.View() == AfterCreate(old(cache.View()), KeyOf(audience, scope), grant)
    {
      cache.SetSessionToken(grant.shared);
      cache.SetSlot(KeyOf(audience, scope), grant.slot);
    }

    /** `getTokenSilently` up to the lock: a fresh slot, or the store to look at again. */
    method GetTokenStarts(audience: Option<string>, scope: Option<string>, now: int)
      returns (slot: Option<Slot>, store: SlotStore)
      requires cache.Valid()
      modifies cache`slots
      ensures cache.Valid() && cache.View() == old(cache.View())
      ensures slot == FreshSlot(cache.View(), KeyOf(audience, scope), now)
      ensures KeyOf(audience, scope) in cache.slots && store == cache.slots[KeyOf(audience, scope)]
    {
      store := cache.GetStore(KeyOf(audience, scope));
      slot := store.stored;
      if slot.Some? && !((slot.value.expiresAt - EXPIRY_LEEWAY_SECONDS) * 1000 > now) {
        slot := None;
      }
    }

    /** The checks under the lock, on the store captured before waiting for it. */
    method GetTokenLocked(
        store: SlotStore, key: Key, now: int)
      returns (answer: Option<Answer>, presented: Option<string>)
      requires cache.Valid()
      requires (key in cache.slots && cache.slots[key] == store) || store.stored == None
      ensures answer == UnderLock(cache.View(), key, key in cache.slots && cache.slots[key] == store, now)
      ensures answer.None? ==> presented == SessionToken(cache.View())
    {
      presented := None;
      if cache.expired {
        return Some(SessionExpired), None;
      }
      var slot := store.stored;
      if slot.Some? {
        if (slot.value.expiresAt - EXPIRY_LEEWAY_SECONDS) * 1000 > now {
          return Some(Token(slot.value)), None;
        }
      }
      answer := None;
      if cache.session.Some? {
        presented := Some(cache.session.value.sessionToken);
      }
    }

    /** `getTokenSilently`, once the server has answered; the lock is released after it. */
    method GetTokenAnswered(key: Key, reply: Reply) returns (answer: Answer)
      requires cache.Valid()
      modifies cache, cache.slots.Values
      ensures cache.Valid() && cache.View() == AfterReply(old(cache.View()), key, reply)
      ensures answer == ReplyAnswer(reply)
    {
      if !reply.Renewed? {
        if reply.Refused? && (reply.code == "session_expired" || reply.code == "invalid_session_token") {
          cache.RemoveAll();
          cache.MarkSessionExpired();
        }
        return Error;
      }
      cache.SetSlot(key, reply.grant.slot);
      if cache.session.None? {
        cache.SetSessionToken(reply.grant.shared);
      }
      answer := Token(reply.grant.slot);
    }

    /** `logout`, once the server has answered. */
    method LogoutAnswered()
      requires cache.Valid()
      modifies cache, cache.slots.Values
      ensures cache.Valid() && cache.View() == Emptied()
    {
      cache.RemoveAll();
    }
  }
}
