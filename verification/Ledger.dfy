/** The status of every GitHub root and the shortfall lists that explain it, through Recon, Check and follow-ups (github.go, followup.go). */
module Ledger {
  import opened Options
  import opened Text

  datatype Status = Collected | Incomplete | NotCollected | Failed | Refused

  datatype Reason = NoReason | LimitReached | ReasonFailed | ReasonRefused | Insufficient | NoCredentials

  /** One read of the provider; pageLimit says its population was cut by the page limit. */
  datatype Read = Read(op: string, decision: string, status: int, reason: string, kind: string, gap: string,
                       truncated: bool, pageLimit: bool, detail: string)
  {
    predicate Good() { (decision == "sent" || decision == "reused") && status == 200 && reason == "" && gap == "" && !truncated }

    /** The target itself was read, not only who is asking. */
    predicate Target() { op != PRINCIPAL && Good() }

    predicate Refuses() { reason == "refused" && (kind == "access" || kind == "mirror") }

    predicate Limited(expired: bool) {
      reason == "limit_reached" || decision == "unavailable:response_too_large" || truncated || pageLimit || expired
    }

    predicate Unavailable() {
      HasPrefix(decision, "unavailable:") && decision != "unavailable:unsupported_principal" && decision != "unavailable:owner_authority"
    }
  }

  const CHECKED :=
    "GitHub identity, repository-access and configured CI evidence collected; coverage shows the rules assessed and remaining limits."

  const PRINCIPAL := "github.principal"

  datatype Verdict = Verdict(status: Status, reason: Reason, refusal: string, detail: string)

  /** A root as recon.json and the run's memory hold it. */
  datatype Asset = Asset(id: string, name: string, verdict: Verdict)

  datatype Shortfall = Shortfall(asset: string, name: string, reason: Reason, kind: string, detail: string)

  // ----- the status of a root from its reads -----

  /** timeout(i) says the run's deadline had passed when read i was looked at. */
  predicate AnyRefused(rs: seq<Read>) { exists i :: 0 <= i < |rs| && rs[i].Refuses() }
  predicate AnyLimited(rs: seq<Read>, timeout: nat -> bool) { exists i :: 0 <= i < |rs| && rs[i].Limited(timeout(i)) }
  predicate AnyUnavailable(rs: seq<Read>) { exists i :: 0 <= i < |rs| && rs[i].Unavailable() }
  predicate AnyTarget(rs: seq<Read>) { exists i :: 0 <= i < |rs| && rs[i].Target() }

  /** The worst thing that happened decides, in whatever order the reads came. */
  predicate Decides(rs: seq<Read>, timeout: nat -> bool, waived: bool, s: Status) {
    (s == Refused <==> AnyRefused(rs)) &&
    (s == Incomplete <==> (!AnyRefused(rs) && (AnyLimited(rs, timeout) || AnyUnavailable(rs)))) &&
    (s == NotCollected <==>
      (!AnyRefused(rs) && !AnyLimited(rs, timeout) && !AnyUnavailable(rs) && !waived && !AnyTarget(rs))) &&
    s != Failed
  }

  predicate FirstRefusal(rs: seq<Read>, i: nat)
    requires i < |rs|
  {
    rs[i].Refuses() && forall k :: 0 <= k < i ==> !rs[k].Refuses()
  }

  /** The loop over the reads of a root that nothing refused. */
  ghost predicate Folded(rs: seq<Read>, timeout: nat -> bool, waived: bool, i: nat, status: Status, reason: Reason, detail: string, target: bool)
    requires i <= |rs|
  {
    !AnyRefused(rs[..i]) && (target <==> waived || AnyTarget(rs[..i])) &&
    (reason == LimitReached <==> AnyLimited(rs[..i], timeout)) &&
    (reason == ReasonFailed <==> !AnyLimited(rs[..i], timeout) && AnyUnavailable(rs[..i])) &&
    reason in {NoReason, LimitReached, ReasonFailed} &&
    (if reason == NoReason then status == Collected && detail == "" else status == Incomplete)
  }

  lemma FoldedGrows(rs: seq<Read>, timeout: nat -> bool, i: nat)
    requires i < |rs|
    ensures AnyRefused(rs[..i + 1]) <==> AnyRefused(rs[..i]) || rs[i].Refuses()
    ensures AnyTarget(rs[..i + 1]) <==> AnyTarget(rs[..i]) || rs[i].Target()
    ensures AnyLimited(rs[..i + 1], timeout) <==> AnyLimited(rs[..i], timeout) || rs[i].Limited(timeout(i))
    ensures AnyUnavailable(rs[..i + 1]) <==> AnyUnavailable(rs[..i]) || rs[i].Unavailable()
  {
    var a, b := rs[..i], rs[..i + 1];
    assert b[i] == rs[i];
    assert forall k :: 0 <= k < i ==> b[k] == a[k];
  }

  lemma RefusedAt(rs: seq<Read>, i: nat)
    requires i < |rs| && rs[i].Refuses() && !AnyRefused(rs[..i])
    ensures AnyRefused(rs) && FirstRefusal(rs, i)
  {
    assert forall k :: 0 <= k < i ==> rs[..i][k] == rs[k];
  }

  /** What one read gave: inventory, or a refusal. */
  method ReadGave(read: Read) returns (inventory: bool, refuses: bool)
    ensures inventory <==> read.Target()
    ensures refuses <==> read.Refuses()
  {
    inventory := read.op != "github.principal" && (read.decision == "sent" || read.decision == "reused") && read.status == 200 &&
      read.reason == "" && read.gap == "" && !read.truncated;
    refuses := read.reason == "refused" && (read.kind == "access" || read.kind == "mirror");
  }

  /** What stopped it: a limit, or that it was not available. */
  method ReadStopped(read: Read, expired: bool) returns (limited: bool, unavailable: bool)
    ensures limited <==> read.Limited(expired)
    ensures unavailable <==> read.Unavailable()
  {
    hide HasPrefix;
    limited := expired || read.reason == "limit_reached" || read.truncated || read.pageLimit || read.decision == "unavailable:response_too_large";
    unavailable := read.decision != "unavailable:unsupported_principal" && read.decision != "unavailable:owner_authority" &&
      HasPrefix(read.decision, "unavailable:");
  }

  method GithubStatus(rs: seq<Read>, timeout: nat -> bool, waived: bool) returns (v: Verdict)
    ensures Decides(rs, timeout, waived, v.status)
    ensures v.status == Refused ==>
      (exists i :: 0 <= i < |rs| && FirstRefusal(rs, i) && v == Verdict(Refused, ReasonRefused, rs[i].kind, rs[i].detail))
    ensures v.status == Incomplete ==> v.refusal == "" && v.reason == if AnyLimited(rs, timeout) then LimitReached else ReasonFailed
    ensures v.status == NotCollected ==> v.refusal == "" && v.reason in {Insufficient, NoCredentials}
    ensures v.status == NotCollected ==> (v.reason == NoCredentials <==> exists i :: 0 <= i < |rs| && rs[i].reason == "no_credentials")
    ensures v.status == Collected ==> v == Verdict(Collected, NoReason, "", "")
  {
    hide AnyRefused, AnyLimited, AnyUnavailable, AnyTarget, FirstRefusal;
    var status, reason, detail, target := Collected, NoReason, "", waived;
    NoReads(timeout);
    for i := 0 to |rs|
      invariant Folded(rs, timeout, waived, i, status, reason, detail, target)
    {
      hide Read.Limited, Read.Unavailable, Read.Refuses, Read.Target, Read.Good;
      var read := rs[i];
      FoldedGrows(rs, timeout, i);
      var inventory, refuses := ReadGave(read);
      var limited, unavailable := ReadStopped(read, timeout(i));
      if inventory { target := true; }
      if refuses {
        RefusedAt(rs, i);
        return Verdict(Refused, ReasonRefused, read.kind, read.detail);
      }
      if limited {
        status, reason := Incomplete, LimitReached;
        detail := if read.detail == "" then read.op + ": a response or page limit stopped collection" else read.detail;
      } else if reason != LimitReached && unavailable {
        status, reason, detail := Incomplete, ReasonFailed, read.op + ": " + read.decision;
      }
    }
    assert rs[..|rs|] == rs;
    if status == Collected && !target {
      status := NotCollected;
      reason, detail := NotRead(rs);
    }
    return Verdict(status, reason, "", detail);
  }

  lemma NoReads(timeout: nat -> bool)
    ensures !AnyRefused([]) && !AnyTarget([]) && !AnyLimited([], timeout) && !AnyUnavailable([])
  {
  }

  /** Why a root gave nothing: no credentials, or not the permission. */
  method NotRead(rs: seq<Read>) returns (reason: Reason, detail: string)
    ensures reason in {Insufficient, NoCredentials}
    ensures reason == NoCredentials <==> exists i :: 0 <= i < |rs| && rs[i].reason == "no_credentials"
  {
    for i := 0 to |rs|
      invariant forall k :: 0 <= k < i ==> rs[k].reason != "no_credentials"
    {
      if rs[i].reason == "no_credentials" { return NoCredentials, rs[i].detail; }
    }
    return Insufficient, "no organization inventory could be read";
  }

  // ----- the lists -----

  function Level(s: Status): nat { match s case Collected => 0 case Refused => 2 case _ => 1 }

  function About(entries: seq<Shortfall>, id: string): (r: seq<Shortfall>)
    ensures forall e :: e in r <==> e in entries && e.asset == id
  {
    if entries == [] then []
    else
      var rest, e := About(entries[..|entries| - 1], id), entries[|entries| - 1];
      assert entries == entries[..|entries| - 1] + [e];
      if e.asset == id then rest + [e] else rest
  }

  /** slices.DeleteFunc by asset. */
  function Dropped(entries: seq<Shortfall>, id: string): (r: seq<Shortfall>) {
    if entries == [] then []
    else
      var rest, e := Dropped(entries[..|entries| - 1], id), entries[|entries| - 1];
      if e.asset == id then rest else rest + [e]
  }

  lemma {:induction false} AboutDropped(entries: seq<Shortfall>, id: string, other: string)
    ensures About(Dropped(entries, id), other) == if other == id then [] else About(entries, other)
  {
    if entries != [] {
      AboutDropped(entries[..|entries| - 1], id, other);
      var rest, e := Dropped(entries[..|entries| - 1], id), entries[|entries| - 1];
      assert (rest + [e])[..|rest|] == rest;
    }
  }

  lemma AboutGrows(entries: seq<Shortfall>, e: Shortfall, id: string)
    ensures About(entries + [e], id) == if e.asset == id then About(entries, id) + [e] else About(entries, id)
  {
    assert (entries + [e])[..|entries|] == entries;
  }

  function EntryOf(a: Asset): Shortfall {
    Shortfall(a.id, a.name, a.verdict.reason, if a.verdict.status == Refused then a.verdict.refusal else "", a.verdict.detail)
  }

  /**
   * A root is in exactly one state: collected and in neither list, short and in the incomplete list once, or refused and
   * in the refused list once. Its one entry says what the root says.
   */
  ghost predicate Settled(a: Asset, incomplete: seq<Shortfall>, refused: seq<Shortfall>) {
    match a.verdict.status
    case Collected => About(incomplete, a.id) == [] && About(refused, a.id) == []
    case Refused => About(incomplete, a.id) == [] && About(refused, a.id) == [EntryOf(a)]
    case _ => About(incomplete, a.id) == [EntryOf(a)] && About(refused, a.id) == []
  }

  ghost predicate Sound(assets: seq<Asset>, incomplete: seq<Shortfall>, refused: seq<Shortfall>) {
    (forall i, j :: 0 <= i < j < |assets| ==> assets[i].id != assets[j].id) &&
    (forall i :: 0 <= i < |assets| ==> Settled(assets[i], incomplete, refused))
  }

  /** The lists agree about every asset but one. */
  ghost predicate SameElsewhere(a: seq<Shortfall>, b: seq<Shortfall>, id: string) { forall x :: x != id ==> About(a, x) == About(b, x) }

  lemma Nowhere(a: seq<Shortfall>, b: seq<Shortfall>, id: string)
    ensures SameElsewhere(a, a, id) && SameElsewhere(b, b, id)
  {
  }

  lemma Elsewhere(a: seq<Shortfall>, b: seq<Shortfall>, c: seq<Shortfall>, id: string)
    requires SameElsewhere(a, b, id) && SameElsewhere(b, c, id)
    ensures SameElsewhere(a, c, id)
  {
    hide About;
  }

  lemma SoundUpdate(assets: seq<Asset>, inc: seq<Shortfall>, ref: seq<Shortfall>, i: nat, a: Asset, inc': seq<Shortfall>, ref': seq<Shortfall>)
    requires Sound(assets, inc, ref) && i < |assets| && a.id == assets[i].id
    requires SameElsewhere(inc, inc', a.id) && SameElsewhere(ref, ref', a.id) && Settled(a, inc', ref')
    ensures Sound(assets[i := a], inc', ref')
  {
    var all := assets[i := a];
    forall k | 0 <= k < |all| ensures Settled(all[k], inc', ref') {
      if k != i { assert Settled(assets[k], inc, ref) && assets[k].id != a.id; }
    }
  }

  method InventoryVerdict(gateError: Option<string>, rs: seq<Read>, timeout: nat -> bool, repo: bool) returns (v: Verdict)
    ensures gateError.Some? <==> v.status == Failed
    ensures gateError.None? ==> Decides(rs, timeout, repo, v.status)
  {
    hide AnyLimited, AnyUnavailable, AnyTarget, AnyRefused;
    if gateError.Some? { return Verdict(Failed, ReasonFailed, "", gateError.value); }
    v := GithubStatus(rs, timeout, repo);
    if v.detail == "" { v := v.(detail := "GitHub inventory read; Check reads each repository in Plan's order."); }
  }

  class Book {
    var assets: seq<Asset>
    var incomplete: seq<Shortfall>
    var refused: seq<Shortfall>

    ghost predicate Valid() reads this { Sound(assets, incomplete, refused) }

    constructor ()
      ensures Valid() && assets == [] && incomplete == [] && refused == []
    {
      assets, incomplete, refused := [], [], [];
    }

    /** githubShortfall: the entry of a root that did not end collected. */
    method RecordShortfall(a: Asset)
      modifies this`incomplete, this`refused
      ensures refused == if a.verdict.status == Refused then old(refused) + [EntryOf(a)] else old(refused)
      ensures incomplete == if a.verdict.status in {Refused, Collected} then old(incomplete) else old(incomplete) + [EntryOf(a)]
    {
      if a.verdict.status == Refused {
        refused := refused + [Shortfall(a.id, a.name, a.verdict.reason, a.verdict.refusal, a.verdict.detail)];
      } else if a.verdict.status != Collected {
        incomplete := incomplete + [Shortfall(a.id, a.name, a.verdict.reason, "", a.verdict.detail)];
      }
    }

    /** collectGitHub: a root's inventory is read in Recon, or the gate could not be opened. */
    method Collect(id: string, name: string, gateError: Option<string>, rs: seq<Read>, timeout: nat -> bool, repo: bool)
      requires Valid() && (forall i :: 0 <= i < |assets| ==> assets[i].id != id)
      requires About(incomplete, id) == [] && About(refused, id) == []
      modifies this
      ensures Valid() && |assets| == |old(assets)| + 1 && assets[..|old(assets)|] == old(assets)
      ensures assets[|old(assets)|].id == id && assets[|old(assets)|].name == name
      ensures gateError.Some? <==> assets[|old(assets)|].verdict.status == Failed
      ensures gateError.None? ==> Decides(rs, timeout, repo, assets[|old(assets)|].verdict.status)
      ensures SameElsewhere(old(incomplete), incomplete, id) && SameElsewhere(old(refused), refused, id)
    {
      hide Decides, About, Sound, Settled, SameElsewhere;
      var v := InventoryVerdict(gateError, rs, timeout, repo);
      var a := Asset(id, name, v);
      RecordShortfall(a);
      EntryAdded(a, old(incomplete), old(refused), incomplete, refused);
      SoundAdds(assets, old(incomplete), old(refused), a, incomplete, refused);
      assets := assets + [a];
    }

    /** checkGitHub for one root: Recon's and Check's reads judged together, then the mirror's audit record. */
    method Check(i: nat, rs: seq<Read>, timeout: nat -> bool, audited: bool)
      requires Valid() && i < |assets|
      modifies this
      ensures Valid() && |assets| == |old(assets)| && (forall k :: 0 <= k < |assets| && k != i ==> assets[k] == old(assets[k]))
      ensures assets[i].id == old(assets[i].id) && Level(old(assets[i].verdict.status)) <= Level(assets[i].verdict.status)
      ensures old(assets[i].verdict.status) != Refused ==> (assets[i].verdict.status == Refused <==> AnyRefused(rs))
      ensures old(assets[i].verdict.status) == Refused ==> assets[i] == old(assets[i])
      ensures assets[i].verdict.status != Refused && !audited ==> assets[i].verdict.status == Failed
      ensures assets[i].verdict.status == Collected ==> audited && Decides(rs, timeout, false, Collected)
      ensures audited && old(assets[i].verdict.status) == Collected ==> Decides(rs, timeout, false, assets[i].verdict.status)
      ensures audited && old(assets[i].verdict.status) != Collected && !AnyRefused(rs) ==> assets[i] == old(assets[i])
      ensures SameElsewhere(old(incomplete), incomplete, old(assets[i].id)) && SameElsewhere(old(refused), refused, old(assets[i].id))
    {
      hide AnyLimited, AnyUnavailable, AnyTarget, AnyRefused, Sound, SameElsewhere;
      Nowhere(incomplete, refused, assets[i].id);
      var v := GithubStatus(rs, timeout, false);
      Judge(i, v);
      if !audited && assets[i].verdict.status != Refused {
        ghost var inc, ref := incomplete, refused;
        Replace(i, Verdict(Failed, ReasonFailed, "", "mirror audit could not be written"));
        Elsewhere(old(incomplete), inc, incomplete, assets[i].id);
        Elsewhere(old(refused), ref, refused, assets[i].id);
      }
    }

    /** What Recon left and what Recon's and Check's reads say together: the worse of the two stands. */
    method Judge(i: nat, v: Verdict)
      requires Valid() && i < |assets| && v.status != Failed
      modifies this
      ensures Valid() && |assets| == |old(assets)| && (forall k :: 0 <= k < |assets| && k != i ==> assets[k] == old(assets[k]))
      ensures assets[i].id == old(assets[i].id) && Level(old(assets[i].verdict.status)) <= Level(assets[i].verdict.status)
      ensures old(assets[i].verdict.status) == Refused ==> assets[i] == old(assets[i])
      ensures old(assets[i].verdict.status) != Refused ==> (assets[i].verdict.status == Refused <==> v.status == Refused)
      ensures assets[i].verdict.status == Collected ==> v.status == Collected
      ensures old(assets[i].verdict.status) != Refused && (v.status == Refused || (old(assets[i].verdict.status) == Collected && v.status != Collected)) ==>
        assets[i].verdict == v
      ensures old(assets[i].verdict.status) !in {Refused, Collected} && v.status != Refused ==> assets[i] == old(assets[i])
      ensures old(assets[i].verdict.status) == v.status == Collected ==> assets[i].verdict.status == Collected
      ensures SameElsewhere(old(incomplete), incomplete, old(assets[i].id)) && SameElsewhere(old(refused), refused, old(assets[i].id))
    {
      hide Sound, SameElsewhere, CHECKED;
      Nowhere(incomplete, refused, assets[i].id);
      var was := assets[i].verdict.status;
      if was == Refused {
      } else if v.status == Refused {
        Replace(i, v);
      } else if was == Collected && v.status != Collected {
        Replace(i, v);
      } else if was == Collected {
        Reword(i, CHECKED);
      }
    }

    /** The root takes a worse verdict: the entry it may have had goes, and the new one is recorded. */
    method Replace(i: nat, v: Verdict)
      requires Valid() && i < |assets| && v.status != Collected && assets[i].verdict.status != Refused
      modifies this
      ensures Valid() && assets == old(assets)[i := old(assets[i]).(verdict := v)]
      ensures SameElsewhere(old(incomplete), incomplete, old(assets[i].id)) && SameElsewhere(old(refused), refused, old(assets[i].id))
    {
      hide About, Dropped;
      var id := assets[i].id;
      if assets[i].verdict.status != Collected {
        incomplete := Dropped(incomplete, id);
      }
      ghost var cleared := incomplete;
      forall x ensures About(cleared, x) == if x == id then [] else About(old(incomplete), x) {
        AboutDropped(old(incomplete), id, x);
        assert Settled(assets[i], old(incomplete), old(refused));
      }
      assert About(old(refused), id) == [] by { assert Settled(assets[i], old(incomplete), old(refused)); }
      var a := assets[i].(verdict := v);
      RecordShortfall(a);
      EntryAdded(a, cleared, old(refused), incomplete, refused);
      SoundUpdate(assets, old(incomplete), old(refused), i, a, incomplete, refused);
      assets := assets[i := a];
    }

    method Reword(i: nat, detail: string)
      requires Valid() && i < |assets| && assets[i].verdict.status == Collected
      modifies this`assets
      ensures Valid() && assets == old(assets)[i := old(assets[i]).(verdict := old(assets[i].verdict).(detail := detail))]
    {
      var a := assets[i].(verdict := assets[i].verdict.(detail := detail));
      assert Settled(assets[i], incomplete, refused);
      SoundUpdate(assets, incomplete, refused, i, a, incomplete, refused);
      assets := assets[i := a];
    }

    method FollowUpRefused(i: nat, kind: string, detail: string)
      requires Valid() && i < |assets|
      modifies this
      ensures Valid() && |assets| == |old(assets)| && (forall k :: 0 <= k < |assets| && k != i ==> assets[k] == old(assets[k]))
      ensures assets[i].id == old(assets[i].id) && assets[i].verdict.status == Refused
      ensures assets[i].verdict == if old(assets[i].verdict.status) == Refused then old(assets[i].verdict) else Verdict(Refused, ReasonRefused, kind, detail)
      ensures old(assets[i].verdict.status) == Refused ==> assets[i] == old(assets[i])
    {
      if assets[i].verdict.status == Refused { return; }
      Replace(i, Verdict(Refused, ReasonRefused, kind, detail));
    }

    method FollowUpStopped(i: nat, detail: string)
      requires Valid() && i < |assets|
      modifies this
      ensures Valid() && |assets| == |old(assets)| && (forall k :: 0 <= k < |assets| && k != i ==> assets[k] == old(assets[k]))
      ensures assets[i].id == old(assets[i].id)
      ensures if old(assets[i].verdict.status) == Collected then assets[i].verdict.status == Incomplete else assets[i] == old(assets[i])
      ensures old(assets[i].verdict.status) == Collected ==> assets[i].verdict.reason == LimitReached && assets[i].verdict.refusal == ""
    {
      if assets[i].verdict.status != Collected { return; }
      Replace(i, Verdict(Incomplete, LimitReached, "", "the follow-up reads stopped: " + detail));
    }
  }

  /** The entry githubShortfall writes settles a root that had none. */
  lemma EntryAdded(a: Asset, inc: seq<Shortfall>, ref: seq<Shortfall>, inc': seq<Shortfall>, ref': seq<Shortfall>)
    requires About(inc, a.id) == [] && About(ref, a.id) == []
    requires ref' == if a.verdict.status == Refused then ref + [EntryOf(a)] else ref
    requires inc' == if a.verdict.status in {Refused, Collected} then inc else inc + [EntryOf(a)]
    ensures Settled(a, inc', ref') && SameElsewhere(inc, inc', a.id) && SameElsewhere(ref, ref', a.id)
  {
    hide About;
    forall x
      ensures About(inc + [EntryOf(a)], x) == if x == a.id then About(inc, x) + [EntryOf(a)] else About(inc, x)
      ensures About(ref + [EntryOf(a)], x) == if x == a.id then About(ref, x) + [EntryOf(a)] else About(ref, x)
    {
      AboutGrows(inc, EntryOf(a), x);
      AboutGrows(ref, EntryOf(a), x);
    }
  }

  lemma SoundAdds(assets: seq<Asset>, inc: seq<Shortfall>, ref: seq<Shortfall>, a: Asset, inc': seq<Shortfall>, ref': seq<Shortfall>)
    requires Sound(assets, inc, ref) && forall i :: 0 <= i < |assets| ==> assets[i].id != a.id
    requires SameElsewhere(inc, inc', a.id) && SameElsewhere(ref, ref', a.id) && Settled(a, inc', ref')
    ensures Sound(assets + [a], inc', ref')
  {
    hide About;
    var all := assets + [a];
    forall k | 0 <= k < |all| ensures Settled(all[k], inc', ref') {
      if k < |assets| { assert Settled(assets[k], inc, ref) && assets[k].id != a.id; }
    }
  }

  /** More reads never make a root look better, but for the one thing Recon could not yet see: an inventory. */
  lemma MoreReadsNeverBetter(rs: seq<Read>, more: seq<Read>, timeout: nat -> bool, waived: bool, s: Status, s': Status)
    requires Decides(rs, timeout, waived, s) && Decides(rs + more, timeout, false, s')
    ensures Level(s) <= Level(s') || (s == NotCollected && AnyTarget(more))
  {
    var all := rs + more;
    assert forall i :: 0 <= i < |rs| ==> all[i] == rs[i];
    if AnyRefused(rs) {
      var i :| 0 <= i < |rs| && rs[i].Refuses();
      assert all[i].Refuses();
    } else if AnyLimited(rs, timeout) {
      var i :| 0 <= i < |rs| && rs[i].Limited(timeout(i));
      assert all[i].Limited(timeout(i));
    } else if AnyUnavailable(rs) {
      var i :| 0 <= i < |rs| && rs[i].Unavailable();
      assert all[i].Unavailable();
    } else if s == NotCollected && s' == Collected {
      var i :| 0 <= i < |all| && all[i].Target();
      assert i < |rs| ==> AnyTarget(rs);
      assert all[i] == more[i - |rs|];
    }
  }
}
