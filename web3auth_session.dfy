/**
 * The session hook: it owns the core-kit instance (none outside a
 * browser), keeps a local copy of the instance's status, initialises the
 * instance once when it reports `NotInitialized`, re-reads its status on
 * every tick of a 300 ms timer, and offers `logout` and `getUserInfo`.
 */
module Web3AuthSession {
  import opened Wrappers
  import opened CoreKit

  /** The timer's period in milliseconds. */
  const PollIntervalMs: nat := 300

  /**
   * The updater the timer hands to `setStatus`: the status just read when
   * it differs from the previous one, the previous one (the same value,
   * so React skips the re-render) otherwise.
   */
  function Updater(current: Status, prev: Status): (next: Status)
    ensures next == current
    ensures next == prev <==> current == prev
  {
    if current != prev then current else prev
  }

  /** The local copy agrees with the instance (trivially so when there is none). */
  predicate Mirrors(local: Status, instance: Option<Status>)
  {
    instance.None? || local == instance.value
  }

  /** A second tick with no change in between changes nothing. */
  lemma UpdaterIdempotent(current: Status, prev: Status)
    ensures Updater(current, Updater(current, prev)) == Updater(current, prev)
  {
  }

  class Session {
    /** `coreKitInstance`: `null` when `window` is undefined. */
    const instance: Service?
    /** The hook's `status` state. */
    var status: Status

    constructor(instance: Service?)
      ensures this.instance == instance
      ensures status == NotInitialized
    {
      this.instance := instance;
      status := NotInitialized;
    }

    /**
     * The init effect: only an instance that reports `NotInitialized` is
     * initialised; when `init()` returns, the local copy takes the
     * instance's new status, and when it throws the copy is left as it was.
     */
    method InitEffect()
      modifies this, instance
      ensures instance == null || old(instance.status) != NotInitialized ==>
        status == old(status) && (instance != null ==> unchanged(instance))
      ensures instance != null && old(instance.status) == NotInitialized ==>
        var r := NextReply(old(instance.script), old(instance.status), old(instance.shareDescriptions));
        && instance.calls == old(instance.calls) + [Call(Init, old(instance.status), old(instance.shareDescriptions), r)]
        && Served(old(instance.Now()), [Call(Init, old(instance.status), old(instance.shareDescriptions), r)], instance.Now())
        && (r.Returned? ==> status == r.status && Mirrors(status, Some(instance.status)))
        && (r.Threw? ==> status == old(status) && instance.status == old(instance.status))
    {
      if instance != null && instance.status == NotInitialized {
        var r := instance.Invoke(Init);
        if r.Returned? {
          status := instance.status;
        }
      }
    }

    /** One tick of the timer; without an instance no timer is set up. */
    method PollTick()
      modifies this
      ensures instance == null ==> status == old(status)
      ensures instance != null ==> status == Updater(instance.status, old(status))
      ensures Mirrors(status, if instance == null then None else Some(instance.status))
    {
      if instance == null {
        return;
      }
      var current := instance.status;
      status := Updater(current, status);
    }

    /** `logout()`: a no-op without an instance; otherwise the copy takes the status `logout()` leaves. */
    method Logout()
      modifies this, instance
      ensures instance == null ==> status == old(status)
      ensures instance != null ==>
        var r := NextReply(old(instance.script), old(instance.status), old(instance.shareDescriptions));
        && instance.calls == old(instance.calls) + [Call(CoreKit.Logout, old(instance.status), old(instance.shareDescriptions), r)]
        && Served(old(instance.Now()), [Call(CoreKit.Logout, old(instance.status), old(instance.shareDescriptions), r)], instance.Now())
        && (r.Returned? ==> status == r.status && Mirrors(status, Some(instance.status)))
        && (r.Threw? ==> status == old(status))
    {
      if instance == null {
        return;
      }
      var r := instance.Invoke(CoreKit.Logout);
      if r.Returned? {
        status := instance.status;
      }
    }

    /**
     * `getUserInfo()`: `null` (here `None`) without an instance, otherwise
     * what the instance's synchronous `getUserInfo` answers; it changes
     * neither the instance's status nor the local copy.
     */
    method GetUserInfo() returns (info: Option<Reply>)
      modifies instance
      ensures instance == null <==> info.None?
      ensures status == old(status)
      ensures instance != null ==>
        var next := NextReply(old(instance.script), old(instance.status), old(instance.shareDescriptions));
        && info.value == (if next.Threw? then next else Returned(old(instance.status), old(instance.shareDescriptions), next.value))
        && instance.status == old(instance.status) && instance.shareDescriptions == old(instance.shareDescriptions)
        && instance.calls == old(instance.calls) + [Call(CoreKit.GetUserInfo, old(instance.status), old(instance.shareDescriptions), info.value)]
        && Served(old(instance.Now()), [Call(CoreKit.GetUserInfo, old(instance.status), old(instance.shareDescriptions), info.value)], instance.Now())
    {
      if instance == null {
        return None;
      }
      var r := instance.Query(CoreKit.GetUserInfo);
      info := Some(r);
    }
  }
}
