/** The certificate of an IP endpoint: on disk, loaded by the server, and recorded as loaded
    (deploy/ip-api/ip_api_tls.py: atomic_text, issue, reload_caddy, enable_https, renew).

    A certificate stands for the hash of its chain, and a new one is never equal to an earlier one.
    Every external command and every write may fail, and a process may crash between any two steps.  The exclusive lock
    makes the commands of different processes follow each other. */
module Certificates {
  import opened Options

  type Certificate = nat

  /** What certbot does: it may obtain a certificate and still fail. */
  datatype Certbot = Keeps | Obtains | Fails | ObtainsThenFails

  /** What a reload does: it may take effect and still be reported as failed. */
  datatype Reload = Loads | Refuses | LoadsThenFails

  datatype Operation =
    | Issue(argumentsFit: bool, staging: bool, mounted: bool, certbot: Certbot)
    | EnableHttps(mounted: bool, trusted: bool, reload: Reload, siteWritten: bool, recordWritten: bool)
    | Renew(dryRun: bool, mounted: bool, certbot: Certbot, trusted: bool, reload: Reload, recordWritten: bool)
    | ServerStart

  datatype Outcome = Done | Raised | Crashed

  datatype Snapshot = Snapshot(
    disk: Option<Certificate>, loaded: Option<Certificate>, recorded: Option<Certificate>, enabled: bool)

  /** What is recorded is believed: if it is the certificate on disk, the server has loaded it. */
  predicate Safe(s: Snapshot) {
    && (s.recorded.Some? ==> s.enabled)
    && (s.recorded.Some? && s.recorded == s.disk ==> s.loaded == s.disk)
  }

  /** `n` steps passed, and the crash was not due at any of them. */
  predicate Passed(before: Option<nat>, after: Option<nat>, n: nat) {
    if before.None? then after.None? else before.value >= n && after == Some(before.value - n)
  }

  /** The crash is due at one of the next `n` steps. */
  predicate Due(fuse: Option<nat>, n: nat) {
    fuse.Some? && fuse.value < n
  }

  class Installation {
    var disk: Option<Certificate>
    var loaded: Option<Certificate>
    var recorded: Option<Certificate>
    var enabled: bool
    /** Files left over from an unfinished `atomic_text`. */
    var sitePending: bool
    var recordPending: bool
    var next: Certificate
    var reloads: nat
    var fuse: Option<nat>
    ghost var trace: seq<Snapshot>

    ghost function Now(): Snapshot
      reads this
    {
      Snapshot(disk, loaded, recorded, enabled)
    }

    predicate Known(c: Option<Certificate>)
      reads this
    {
      c.Some? ==> c.value < next
    }

    ghost predicate Valid()
      reads this
    {
      && Known(disk) && Known(loaded) && Known(recorded)
      && Safe(Now())
      && forall s :: s in trace ==> Safe(s)
    }

    /** A directory as `initialize` leaves it. */
    constructor ()
      ensures Valid() && Now() == Snapshot(None, None, None, false) && !sitePending && !recordPending
      ensures trace == [] && fuse.None?
    {
      disk, loaded, recorded, enabled := None, None, None, false;
      sitePending, recordPending, next, reloads, fuse, trace := false, false, 0, 0, None, [];
    }

    /** One more step; the crash comes when the fuse has burnt down. */
    method Tick() returns (crashed: bool)
      modifies this`fuse
      ensures crashed <==> Due(old(fuse), 1)
      ensures !crashed ==> Passed(old(fuse), fuse, 1)
    {
      crashed := fuse == Some(0);
      if fuse.Some? && fuse.value > 0 {
        fuse := Some(fuse.value - 1);
      }
    }

    method RunCertbot(c: Certbot, staging: bool) returns (o: Outcome)
      requires Valid()
      modifies this`disk, this`next, this`trace, this`fuse
      ensures Valid() && old(trace) <= trace
      ensures o.Crashed? <==> Due(old(fuse), 2)
      ensures !o.Crashed? ==> Passed(old(fuse), fuse, 2) && (o.Done? <==> c.Keeps? || c.Obtains?)
      ensures disk == (if (c.Obtains? || c.ObtainsThenFails?) && !staging && !Due(old(fuse), 1) then Some(old(next)) else old(disk))
    {
      var crashed := Tick();
      if crashed {
        return Crashed;
      }
      if (c.Obtains? || c.ObtainsThenFails?) && !staging {
        disk, next := Some(next), next + 1;
        trace := trace + [Now()];
      }
      crashed := Tick();
      return if crashed then Crashed else if c.Keeps? || c.Obtains? then Done else Raised;
    }

    /** The certificate on disk, if there is one and it passes the checks. */
    method CertificateHash(trusted: bool) returns (c: Option<Certificate>)
      ensures c == if trusted then disk else None
    {
      c := if trusted then disk else None;
    }

    method ReloadCaddy(r: Reload) returns (o: Outcome)
      requires Valid()
      modifies this`loaded, this`reloads, this`trace, this`fuse
      ensures Valid() && old(trace) <= trace
      ensures o.Crashed? <==> Due(old(fuse), 2)
      ensures !o.Crashed? ==> Passed(old(fuse), fuse, 2) && (o.Done? <==> r.Loads?)
      ensures loaded == if !r.Refuses? && !Due(old(fuse), 1) then (if enabled then disk else None) else old(loaded)
      ensures reloads == old(reloads) + 1
    {
      reloads := reloads + 1;
      var crashed := Tick();
      if crashed {
        return Crashed;
      }
      if !r.Refuses? {
        loaded := if enabled then disk else None;
        trace := trace + [Now()];
      }
      crashed := Tick();
      return if crashed then Crashed else if r.Loads? then Done else Raised;
    }

    /** atomic_text for the enabled site; a write that fails leaves its file behind. */
    method WriteSite(written: bool) returns (o: Outcome)
      requires Valid() && !enabled
      modifies this`enabled, this`sitePending, this`trace, this`fuse
      ensures Valid() && old(trace) <= trace
      ensures o.Raised? <==> old(sitePending) || (!written && !Due(old(fuse), 1))
      ensures o.Crashed? <==> !old(sitePending) && Due(old(fuse), if written then 2 else 1)
      ensures o.Done? ==> Passed(old(fuse), fuse, 2)
      ensures sitePending <==> old(sitePending) || Due(old(fuse), 1) || !written
      ensures enabled <==> !sitePending
    {
      if sitePending {
        return Raised;
      }
      sitePending := true;
      var crashed := Tick();
      if crashed {
        return Crashed;
      }
      if !written {
        return Raised;
      }
      enabled, sitePending := true, false;
      trace := trace + [Now()];
      crashed := Tick();
      return if crashed then Crashed else Done;
    }

    /** atomic_text for the recorded certificate. */
    method WriteRecord(c: Certificate, written: bool) returns (o: Outcome)
      requires Valid() && enabled && disk == Some(c) && loaded == disk
      modifies this`recorded, this`recordPending, this`trace, this`fuse
      ensures Valid() && old(trace) <= trace
      ensures o.Raised? <==> old(recordPending) || (!written && !Due(old(fuse), 1))
      ensures o.Crashed? <==> !old(recordPending) && Due(old(fuse), if written then 2 else 1)
      ensures recordPending <==> old(recordPending) || Due(old(fuse), 1) || !written
      ensures recorded == if recordPending then old(recorded) else Some(c)
    {
      if recordPending {
        return Raised;
      }
      recordPending := true;
      var crashed := Tick();
      if crashed {
        return Crashed;
      }
      if !written {
        return Raised;
      }
      recorded, recordPending := Some(c), false;
      trace := trace + [Now()];
      crashed := Tick();
      return if crashed then Crashed else Done;
    }

    /** A left-over file blocks every later recording. */
    twostate predicate StaysBlocked()
      reads this
    {
      old(recordPending) ==> recordPending && recorded == old(recorded)
    }

    method IssueCertificate(argumentsFit: bool, staging: bool, mounted: bool, certbot: Certbot) returns (o: Outcome)
      requires Valid()
      modifies this`disk, this`next, this`trace, this`fuse
      ensures Valid() && old(trace) <= trace
      ensures staging ==> disk == old(disk)
      ensures o.Done? <==> argumentsFit && mounted && (certbot.Keeps? || certbot.Obtains?) && !Due(old(fuse), 2)
      ensures o.Done? ==> disk == if certbot.Obtains? && !staging then Some(old(next)) else old(disk)
    {
      if !argumentsFit || !mounted {
        return Raised;
      }
      o := RunCertbot(certbot, staging);
    }

    /** Enables the site, and takes it back if the server would not load it.  The record is left unfinished
        exactly when the last write is reached and the crash is due in it, or it fails. */
    method Enable(mounted: bool, trusted: bool, reload: Reload, siteWritten: bool, recordWritten: bool) returns (o: Outcome)
      requires Valid()
      modifies this`enabled, this`sitePending, this`loaded, this`reloads, this`recorded, this`recordPending, this`trace, this`fuse
      ensures Valid() && old(trace) <= trace && StaysBlocked()
      ensures o.Done? ==> enabled && disk.Some? && loaded == disk && recorded == disk
      ensures o.Raised? ==> enabled == old(enabled) || reload.Loads?
      ensures old(enabled) ==> enabled
      ensures
        var first := if old(enabled) then 0 else 2;
        var reached :=
          && mounted && trusted && disk.Some? && (old(enabled) || (!old(sitePending) && siteWritten))
          && !Due(old(fuse), first + 2) && reload.Loads?;
        && (recordPending <==> old(recordPending) || (reached && (Due(old(fuse), first + 3) || !recordWritten)))
        && (o.Done? <==> reached && !old(recordPending) && recordWritten && !Due(old(fuse), first + 4))
        && (reached && Due(old(fuse), first + 3) && !old(recordPending) ==> o.Crashed?)
        && (reached ==> enabled && loaded == disk && (recordPending ==> recorded == old(recorded)))
    {
      if !mounted {
        return Raised;
      }
      var fingerprint := CertificateHash(trusted);
      if fingerprint.None? {
        return Raised;
      }
      var newlyEnabled := !enabled;
      if newlyEnabled {
        o := WriteSite(siteWritten);
        if !o.Done? {
          return;
        }
      }
      o := ReloadCaddy(reload);
      if o.Raised? && newlyEnabled {
        enabled := false;
        trace := trace + [Now()];
      }
      if !o.Done? {
        return;
      }
      o := WriteRecord(fingerprint.value, recordWritten);
    }

    /** What a renewal does once certbot is through. */
    method LoadIfNew(trusted: bool, reload: Reload, recordWritten: bool) returns (o: Outcome)
      requires Valid() && enabled
      modifies this`loaded, this`reloads, this`recorded, this`recordPending, this`trace, this`fuse
      ensures Valid() && old(trace) <= trace && StaysBlocked()
      ensures o.Done? ==> trusted && disk.Some? && loaded == disk && recorded == disk
      ensures loaded == old(loaded) || (loaded == disk && reloads > old(reloads))
      ensures reloads == old(reloads) + if trusted && disk.Some? && old(recorded) != disk then 1 else 0
      ensures reloads > old(reloads) && !reload.Loads? ==> !o.Done? && recorded == old(recorded) && recorded != disk
      ensures
        var reached := trusted && disk.Some? && old(recorded) != disk && reload.Loads? && !Due(old(fuse), 2);
        && (recordPending <==> old(recordPending) || (reached && (Due(old(fuse), 3) || !recordWritten)))
        && (o.Done? <==>
             || (trusted && disk.Some? && old(recorded) == disk)
             || (reached && !old(recordPending) && recordWritten && !Due(old(fuse), 4)))
    {
      var fingerprint := CertificateHash(trusted);
      if fingerprint.None? {
        return Raised;
      }
      o := Done;
      if recorded != fingerprint {
        o := ReloadCaddy(reload);
        if o.Done? {
          o := WriteRecord(fingerprint.value, recordWritten);
        }
      }
    }

    /** A renewal that ends well leaves the server with the certificate on disk, reloaded only if it was
        not recorded before; one whose reload fails leaves it unrecorded, so the next renewal tries again. */
    method RenewCertificate(dryRun: bool, mounted: bool, certbot: Certbot, trusted: bool, reload: Reload, recordWritten: bool)
      returns (o: Outcome)
      requires Valid()
      modifies this`disk, this`next, this`loaded, this`reloads, this`recorded, this`recordPending, this`trace, this`fuse
      ensures Valid() && old(trace) <= trace && StaysBlocked()
      ensures o.Done? ==> enabled && (dryRun || (disk.Some? && loaded == disk && recorded == disk))
      ensures disk == old(disk) || (disk == Some(old(next)) && !dryRun && (certbot.Obtains? || certbot.ObtainsThenFails?))
      ensures loaded == old(loaded) || (loaded == disk && reloads > old(reloads))
      ensures dryRun ==> disk == old(disk) && recorded == old(recorded) && loaded == old(loaded) && reloads == old(reloads)
      ensures o.Done? && !dryRun ==> reloads == old(reloads) + if old(recorded) != disk then 1 else 0
      ensures reloads > old(reloads) && !reload.Loads? ==> !o.Done? && recorded == old(recorded) && recorded != disk
      ensures old(recordPending) && old(recorded) != disk && !dryRun ==> !o.Done? && recorded != disk
      ensures !dryRun && old(fuse).None? ==>
        (o.Done? <==>
           && mounted && enabled && (certbot.Keeps? || certbot.Obtains?) && trusted && disk.Some?
           && (old(recorded) == disk || (reload.Loads? && !old(recordPending) && recordWritten)))
    {
      if !mounted || !enabled {
        return Raised;
      }
      o := RunCertbot(certbot, dryRun);
      if !o.Done? || dryRun {
        return;
      }
      o := LoadIfNew(trusted, reload, recordWritten);
    }

    /** The server reads what is enabled on disk. */
    method StartServer()
      requires Valid()
      modifies this`loaded, this`trace
      ensures Valid() && old(trace) <= trace
      ensures loaded == if enabled then disk else None
    {
      loaded := if enabled then disk else None;
      trace := trace + [Now()];
    }

    /** One command after another, with a crash allowed inside each. */
    method RunAll(operations: seq<Operation>, fuses: seq<Option<nat>>)
      requires Valid() && |fuses| == |operations|
      modifies this
      ensures Valid() && old(trace) <= trace && StaysBlocked()
    {
      for i := 0 to |operations|
        invariant Valid() && old(trace) <= trace && StaysBlocked()
      {
        fuse := fuses[i];
        var o;
        match operations[i] {
          case Issue(argumentsFit, staging, mounted, certbot) =>
            o := IssueCertificate(argumentsFit, staging, mounted, certbot);
          case EnableHttps(mounted, trusted, reload, siteWritten, recordWritten) =>
            o := Enable(mounted, trusted, reload, siteWritten, recordWritten);
          case Renew(dryRun, mounted, certbot, trusted, reload, recordWritten) =>
            o := RenewCertificate(dryRun, mounted, certbot, trusted, reload, recordWritten);
          case ServerStart =>
            StartServer();
        }
      }
    }
  }

  /** A crash while the first certificate is recorded: the site serves it, but no renewal can record it,
      although nothing else ever fails. */
  method CrashBlocksRenewals() returns (i: Installation, first: Outcome, later: Outcome)
    ensures first.Crashed? && !later.Done?
    ensures fresh(i) && i.Valid() && i.recordPending && i.enabled && i.recorded.None? && i.disk.Some? && i.loaded == i.disk
  {
    i := new Installation();
    var issued := i.IssueCertificate(true, false, true, Obtains);
    i.fuse := Some(4);
    first := i.Enable(true, true, Loads, true, true);
    i.fuse := None;
    later := i.RenewCertificate(false, true, Keeps, true, Loads, true);
  }
}
