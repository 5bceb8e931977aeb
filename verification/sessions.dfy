/**
  The process-wide session store of `main.py`: a map from chat id to that chat's search
  record, created on first contact and removed when a search finishes.
 */
module Sessions {
  import opened Cities

  type Store = map<int, City>

  /** `new_user`: get-or-create the record of a chat. */
  function NewUser(store: Store, chat: int): (s: Store)
    ensures chat in s
    ensures chat in store ==> s[chat] == store[chat]
    ensures chat !in store ==> s[chat] == NewCity()
    ensures s.Keys == store.Keys + {chat}
    ensures forall c :: c in store ==> s[c] == store[c]
  {
    if chat in store then store else store[chat := NewCity()]
  }

  /** `user_requests.pop(chat)`: the chat's record is gone, every other record stays. */
  function Remove(store: Store, chat: int): (s: Store)
    requires chat in store
    ensures chat !in s
    ensures s.Keys == store.Keys - {chat}
    ensures forall c :: c in s ==> s[c] == store[c]
  {
    store - {chat}
  }

  /** Calling `new_user` twice is the same as calling it once. */
  lemma NewUserIdempotent(store: Store, chat: int)
    ensures NewUser(NewUser(store, chat), chat) == NewUser(store, chat)
  {
  }

  /** Removing the record just created restores the store. */
  lemma RemoveUndoesNewUser(store: Store, chat: int)
    requires chat !in store
    ensures Remove(NewUser(store, chat), chat) == store
  {
  }
}
