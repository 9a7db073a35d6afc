/** Outcome types shared by every store.

    A remote call (an awaited Supabase or $fetch promise) is modelled by the
    value it settles with: `Ok(v)` when it resolves with `v`, `Err(msg)` when it
    rejects with an Error whose message is `msg`. */
module Wrappers {

  datatype Option<+T> = None | Some(value: T)

  datatype Result<+T> = Ok(value: T) | Err(msg: string)
}
