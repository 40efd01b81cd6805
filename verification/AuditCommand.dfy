/**
 How the containerd runtime builds the command of an audited debug container:
 the configured shim with its FIFO placeholder replaced, then the user's
 command. Includes the exact condition on the FIFO path under which no
 placeholder can survive the replacement.
 */
module AuditCommand {

  const PLACEHOLDER := "KCTLDBG-FIFO"
  const CONTAINER_ID := "KCTLDBG-CONTAINER-ID"

  predicate StartsWith(s: string, w: string) {
    |w| <= |s| && s[..|w|] == w
  }

  ghost predicate OccursAt(s: string, w: string, i: nat) {
    i + |w| <= |s| && s[i..i + |w|] == w
  }

  ghost predicate Occurs(s: string, w: string) {
    exists i: nat :: OccursAt(s, w, i)
  }

  /** strings.ReplaceAll: every non-overlapping occurrence, found from the left. */
  function ReplaceAll(s: string, pattern: string, subst: string): string
    requires pattern != ""
  {
    if |s| < |pattern| then s
    else if StartsWith(s, pattern) then subst + ReplaceAll(s[|pattern|..], pattern, subst)
    else s[..1] + ReplaceAll(s[1..], pattern, subst)
  }

  function FifoName(auditFifo: string, uuid: string): string {
    ReplaceAll(auditFifo, CONTAINER_ID, uuid)
  }

  /** The replacement cannot combine with its surroundings, or with itself, into the pattern. */
  ghost predicate Inert(subst: string, pattern: string) {
    && !Occurs(subst, pattern)
    && !Occurs(pattern, subst)
    && (forall k :: 0 < k < |pattern| && k <= |subst| ==> subst[|subst| - k..] != pattern[..k])
    && (forall k :: 0 < k < |pattern| && k <= |subst| ==> subst[..k] != pattern[|pattern| - k..])
  }

  /** Where the pattern does not occur nothing is replaced. */
  lemma {:induction false} ReplaceNone(s: string, pattern: string, subst: string)
    requires pattern != "" && !Occurs(s, pattern)
    ensures ReplaceAll(s, pattern, subst) == s
    decreases |s|
  {
    if |s| >= |pattern| {
      assert StartsWith(s, pattern) ==> OccursAt(s, pattern, 0);
      forall i: nat ensures !OccursAt(s[1..], pattern, i) {
        assert !OccursAt(s, pattern, i + 1);
      }
      ReplaceNone(s[1..], pattern, subst);
    }
  }

  lemma ReplaceHere(s: string, pattern: string, subst: string)
    requires pattern != "" && OccursAt(s, pattern, 0)
    ensures ReplaceAll(s, pattern, subst) == subst + ReplaceAll(s[|pattern|..], pattern, subst)
  {
    assert s[0..0 + |pattern|] == s[..|pattern|];
  }

  lemma OccursLater(s: string, pattern: string, i: nat)
    requires s != ""
    ensures OccursAt(s[1..], pattern, i) <==> OccursAt(s, pattern, i + 1)
  {
    if i + 1 + |pattern| <= |s| {
      assert s[1..][i..i + |pattern|] == s[i + 1..i + 1 + |pattern|];
    }
  }

  /** The first occurrence is replaced, and then the search goes on behind it. */
  lemma {:induction false} ReplaceFirst(s: string, pattern: string, subst: string, i: nat)
    requires pattern != "" && OccursAt(s, pattern, i) && forall j: nat :: j < i ==> !OccursAt(s, pattern, j)
    ensures ReplaceAll(s, pattern, subst) == s[..i] + subst + ReplaceAll(s[i + |pattern|..], pattern, subst)
    decreases |s|
  {
    hide ReplaceAll;
    if i == 0 {
      ReplaceHere(s, pattern, subst);
      assert s[..0] + subst == subst;
    } else {
      assert !OccursAt(s, pattern, 0);
      forall j: nat | j < i - 1 ensures !OccursAt(s[1..], pattern, j) {
        OccursLater(s, pattern, j);
      }
      OccursLater(s, pattern, i - 1);
      NotHere(s, pattern);
      OneKept(s, pattern, subst);
      hide OccursAt;
      ReplaceFirst(s[1..], pattern, subst, i - 1);
      assert s[1..][i - 1 + |pattern|..] == s[i + |pattern|..];
      var rest := ReplaceAll(s[i + |pattern|..], pattern, subst);
      assert s[..1] + s[1..][..i - 1] == s[..i];
      assert s[..1] + (s[1..][..i - 1] + subst + rest) == s[..i] + subst + rest;
    }
  }

  lemma NotHere(s: string, pattern: string)
    requires !OccursAt(s, pattern, 0)
    ensures !StartsWith(s, pattern)
  {
    if |pattern| <= |s| {
      assert s[0..0 + |pattern|] == s[..|pattern|];
    }
  }

  /** The pattern cannot overlap itself. */
  predicate FirstUnique(w: string) {
    |w| > 1 && forall i :: 0 < i < |w| ==> w[i] != w[0]
  }

  lemma StartsWithCons(s: string, w: string)
    requires s != "" && w != ""
    ensures StartsWith(s, w) <==> s[0] == w[0] && StartsWith(s[1..], w[1..])
  {
  }

  lemma StartsWithAt(s: string, w: string, j: nat)
    requires j < |w|
    ensures StartsWith(s, w) ==> s[j] == w[j]
  {
  }

  // ------------------------------------------------------------ sufficiency

  /** A result begins with the rest of the pattern only if the input does, or the replacement is not inert. */
  lemma {:induction false} LateStart(t: string, w: string, pattern: string, subst: string)
    requires pattern != "" && 0 < |w| < |pattern| && w == pattern[|pattern| - |w|..]
    requires StartsWith(ReplaceAll(t, pattern, subst), w)
    ensures StartsWith(t, w) || !Inert(subst, pattern)
    decreases |t|
  {
    if |t| < |pattern| {
    } else if StartsWith(t, pattern) {
      var r := ReplaceAll(t, pattern, subst);
      if |subst| >= |w| {
        assert subst[..|w|] == r[..|w|];
      } else {
        assert subst == r[..|w|][..|subst|];
        assert OccursAt(pattern, subst, |pattern| - |w|);
      }
    } else {
      StartsWithCons(ReplaceAll(t, pattern, subst), w);
      StartsWithCons(t, w);
      if |w| > 1 {
        LateStart(t[1..], w[1..], pattern, subst);
      }
    }
  }

  lemma Border(subst: string, rest: string, pattern: string, i: nat)
    requires i < |subst| < i + |pattern| && OccursAt(subst + rest, pattern, i)
    ensures subst[i..] == pattern[..|subst| - i]
  {
  }

  /** Any occurrence in a result, even across the borders of replacements, takes a replacement that is not inert. */
  lemma {:induction false} OccurrenceNeeds(s: string, i: nat, pattern: string, subst: string)
    requires |pattern| > 1 && OccursAt(ReplaceAll(s, pattern, subst), pattern, i)
    ensures !Inert(subst, pattern)
    decreases |s|
  {
    var r := ReplaceAll(s, pattern, subst);
    if |s| < |pattern| {
    } else if StartsWith(s, pattern) {
      var rest := ReplaceAll(s[|pattern|..], pattern, subst);
      if i >= |subst| {
        assert rest[i - |subst|..i - |subst| + |pattern|] == r[i..i + |pattern|];
        OccurrenceNeeds(s[|pattern|..], i - |subst|, pattern, subst);
      } else if |subst| - i >= |pattern| {
        assert OccursAt(subst, pattern, i);
      } else {
        Border(subst, rest, pattern, i);
      }
    } else if i >= 1 {
      OccurrenceNeeds(s[1..], i - 1, pattern, subst);
    } else {
      assert r[..|pattern|] == r[0..0 + |pattern|];
      StartsWithCons(r, pattern);
      StartsWithCons(s, pattern);
      LateStart(s[1..], pattern[1..], pattern, subst);
    }
  }

  /** Replacing by an inert string leaves no occurrence. */
  lemma InertSuffices(s: string, pattern: string, subst: string)
    requires |pattern| > 1 && Inert(subst, pattern)
    ensures !Occurs(ReplaceAll(s, pattern, subst), pattern)
  {
    forall i: nat ensures !OccursAt(ReplaceAll(s, pattern, subst), pattern, i) {
      if OccursAt(ReplaceAll(s, pattern, subst), pattern, i) {
        OccurrenceNeeds(s, i, pattern, subst);
      }
    }
  }

  // -------------------------------------------------------------- necessity

  lemma OneKept(s: string, pattern: string, subst: string)
    requires |s| >= |pattern| > 0 && !StartsWith(s, pattern)
    ensures ReplaceAll(s, pattern, subst) == s[..1] + ReplaceAll(s[1..], pattern, subst)
  {
  }

  /** Characters with which the pattern does not begin are kept. */
  lemma {:induction false} NoFirstKept(u: string, tail: string, pattern: string, subst: string)
    requires pattern != "" && |tail| >= |pattern| && forall j :: 0 <= j < |u| ==> u[j] != pattern[0]
    ensures ReplaceAll(u + tail, pattern, subst) == u + ReplaceAll(tail, pattern, subst)
    decreases |u|
  {
    hide ReplaceAll;
    if u == "" {
      assert u + tail == tail && u + ReplaceAll(tail, pattern, subst) == ReplaceAll(tail, pattern, subst);
    } else {
      StartsWithAt(u + tail, pattern, 0);
      OneKept(u + tail, pattern, subst);
      assert (u + tail)[1..] == u[1..] + tail && (u + tail)[..1] == u[..1];
      NoFirstKept(u[1..], tail, pattern, subst);
      assert u[..1] + (u[1..] + ReplaceAll(tail, pattern, subst)) == u + ReplaceAll(tail, pattern, subst);
    }
  }

  /** A strict prefix of the pattern, put before an input that begins with it, is kept. */
  lemma PrefixKept(i: nat, tail: string, pattern: string, subst: string)
    requires FirstUnique(pattern) && i < |pattern| && StartsWith(tail, pattern)
    ensures ReplaceAll(pattern[0..i] + tail, pattern, subst) == pattern[0..i] + ReplaceAll(tail, pattern, subst)
  {
    if i == 0 {
      NoFirstKept(pattern[0..i], tail, pattern, subst);
    } else {
      hide ReplaceAll;
      var s, u := pattern[0..i] + tail, pattern[1..i];
      StartsWithAt(tail, pattern, 0);
      StartsWithAt(s, pattern, i);
      OneKept(s, pattern, subst);
      assert s[1..] == u + tail && s[..1] == pattern[0..1];
      NoFirstKept(u, tail, pattern, subst);
      assert pattern[0..1] + (u + ReplaceAll(tail, pattern, subst)) == pattern[0..i] + ReplaceAll(tail, pattern, subst);
    }
  }

  lemma ReplaceOnce(pattern: string, subst: string, tail: string)
    requires pattern != "" && |tail| < |pattern|
    ensures StartsWith(pattern + tail, pattern)
    ensures ReplaceAll(pattern + tail, pattern, subst) == subst + tail
  {
  }

  /** Around pattern[..i] and tail, the replacement is written between exactly those strings. */
  lemma ReplaceWithin(i: nat, tail: string, pattern: string, subst: string)
    requires FirstUnique(pattern) && i < |pattern| && |tail| < |pattern|
    ensures ReplaceAll(pattern[0..i] + (pattern + tail), pattern, subst) == pattern[0..i] + subst + tail
  {
    ReplaceOnce(pattern, subst, tail);
    PrefixKept(i, pattern + tail, pattern, subst);
    assert pattern[0..i] + (subst + tail) == pattern[0..i] + subst + tail;
  }

  lemma SuffixLeaves(k: nat, pattern: string, subst: string) returns (s: string)
    requires FirstUnique(pattern) && 0 < k < |pattern| && k <= |subst| && subst[|subst| - k..] == pattern[..k]
    ensures Occurs(ReplaceAll(s, pattern, subst), pattern)
  {
    var n, m := |pattern|, |subst|;
    assert (pattern[0..0] + subst + pattern[k..])[m - k..m - k + n] == subst[m - k..] + pattern[k..];
    s := Leaving(0, pattern[k..], m - k, pattern, subst);
  }

  lemma PrefixLeaves(k: nat, pattern: string, subst: string) returns (s: string)
    requires FirstUnique(pattern) && 0 < k < |pattern| && k <= |subst| && subst[..k] == pattern[|pattern| - k..]
    ensures Occurs(ReplaceAll(s, pattern, subst), pattern)
  {
    var n := |pattern|;
    assert (pattern[0..n - k] + subst + "")[0..n] == pattern[0..n - k] + subst[..k];
    s := Leaving(n - k, "", 0, pattern, subst);
  }

  /** An input on which a replacement that is not inert leaves an occurrence. */
  lemma InertNecessary(pattern: string, subst: string) returns (s: string)
    requires FirstUnique(pattern) && !Inert(subst, pattern)
    ensures Occurs(ReplaceAll(s, pattern, subst), pattern)
  {
    hide ReplaceAll;
    var n, m := |pattern|, |subst|;
    if Occurs(subst, pattern) {
      var at :| OccursAt(subst, pattern, at);
      assert pattern[0..0] + subst + "" == subst;
      s := Leaving(0, "", at, pattern, subst);
    } else if k :| 0 < k < n && k <= m && subst[m - k..] == pattern[..k] {
      s := SuffixLeaves(k, pattern, subst);
    } else if k :| 0 < k < n && k <= m && subst[..k] == pattern[n - k..] {
      s := PrefixLeaves(k, pattern, subst);
    } else {
      assert forall k :: 0 < k < n && k <= m ==> subst[m - k..] != pattern[..k];
      assert forall k :: 0 < k < n && k <= m ==> subst[..k] != pattern[n - k..];
      assert Occurs(pattern, subst);
      var i, tail := EnclosedAt(pattern, subst);
      assert (pattern[0..i] + subst + tail)[0..n] == pattern;
      s := Leaving(i, tail, 0, pattern, subst);
    }
  }

  lemma Leaving(i: nat, tail: string, at: nat, pattern: string, subst: string) returns (s: string)
    requires FirstUnique(pattern) && i < |pattern| && |tail| < |pattern|
    requires OccursAt(pattern[0..i] + subst + tail, pattern, at)
    ensures Occurs(ReplaceAll(s, pattern, subst), pattern)
  {
    s := pattern[0..i] + (pattern + tail);
    ReplaceWithin(i, tail, pattern, subst);
  }

  lemma EnclosedAt(pattern: string, subst: string) returns (i: nat, tail: string)
    requires FirstUnique(pattern) && Occurs(pattern, subst) && !Occurs(subst, pattern)
    requires forall k :: 0 < k < |pattern| && k <= |subst| ==> subst[|subst| - k..] != pattern[..k]
    ensures i < |pattern| && |tail| < |pattern| && pattern[0..i] + subst + tail == pattern
  {
    i :| OccursAt(pattern, subst, i);
    i := if subst == "" then 1 else i;
    tail := pattern[i + |subst|..];
    assert pattern[0..i] + subst + tail == pattern;
    if |tail| == |pattern| {
      assert subst == "";
    }
  }

  /** The shim element s still contains the placeholder after the replacement. */
  ghost predicate Survives(s: string, fifo: string) {
    Occurs(ReplaceAll(s, PLACEHOLDER, fifo), PLACEHOLDER)
  }

  /** Exactly when no shim element, whatever it is, keeps a placeholder. */
  lemma PlaceholderGone(fifo: string)
    ensures (forall s :: !Survives(s, fifo)) <==> Inert(fifo, PLACEHOLDER)
  {
    assert FirstUnique(PLACEHOLDER);
    if Inert(fifo, PLACEHOLDER) {
      forall s ensures !Survives(s, fifo) {
        InertSuffices(s, PLACEHOLDER, fifo);
      }
    } else {
      var s := InertNecessary(PLACEHOLDER, fifo);
      assert Survives(s, fifo);
    }
  }

  /** A FIFO path with the placeholder inside survives in the shim element that is the placeholder. */
  lemma PlaceholderLeftExample()
    ensures Survives(PLACEHOLDER, "/fifo/KCTLDBG-FIFO/1")
  {
    var fifo := "/fifo/KCTLDBG-FIFO/1";
    ReplaceOnce(PLACEHOLDER, fifo, "");
    assert PLACEHOLDER + "" == PLACEHOLDER && fifo + "" == fifo;
    assert OccursAt(fifo, PLACEHOLDER, 6);
  }

  /** For a path whose ends share no character with the placeholder, all that matters is what is inside it. */
  lemma PathInert(fifo: string)
    requires fifo != "" && fifo[0] !in PLACEHOLDER && fifo[|fifo| - 1] !in PLACEHOLDER
    ensures Inert(fifo, PLACEHOLDER) <==> !Occurs(fifo, PLACEHOLDER)
  {
  }

  const DEFAULT_DIRECTORY := "/var/data/kubectl-debug-audit-fifo/"

  /** With the default configuration no placeholder survives, whatever the container's UUID. */
  lemma DefaultFifo(uuid: string)
    requires uuid != "" && 'K' !in uuid && uuid[|uuid| - 1] !in PLACEHOLDER
    ensures var fifo := FifoName(DEFAULT_DIRECTORY + CONTAINER_ID, uuid);
            fifo == DEFAULT_DIRECTORY + uuid && Inert(fifo, PLACEHOLDER)
  {
    var fifo := DEFAULT_DIRECTORY + uuid;
    hide ReplaceAll;
    hide Inert;
    NoFirstKept(DEFAULT_DIRECTORY, CONTAINER_ID, CONTAINER_ID, uuid);
    ReplaceOnce(CONTAINER_ID, uuid, "");
    assert CONTAINER_ID + "" == CONTAINER_ID && uuid + "" == uuid;
    forall i: nat ensures !OccursAt(fifo, PLACEHOLDER, i) {
      if i + |PLACEHOLDER| <= |fifo| {
        assert fifo[i..i + |PLACEHOLDER|][0] == fifo[i] && fifo[i] != 'K';
      }
    }
    PathInert(fifo);
  }

  /** The texts of the default configuration: the path, and the shim element it replaces. */
  lemma DefaultTexts(uuid: string)
    requires uuid != "" && 'K' !in uuid && uuid[|uuid| - 1] !in PLACEHOLDER
    ensures FifoName("/var/data/kubectl-debug-audit-fifo/KCTLDBG-CONTAINER-ID", uuid) ==
            "/var/data/kubectl-debug-audit-fifo/" + uuid
    ensures forall fifo :: ReplaceAll("KCTLDBG-FIFO", PLACEHOLDER, fifo) == fifo
  {
    hide ReplaceAll;
    hide Inert;
    assert DEFAULT_DIRECTORY + CONTAINER_ID == "/var/data/kubectl-debug-audit-fifo/KCTLDBG-CONTAINER-ID";
    DefaultFifo(uuid);
    forall fifo ensures ReplaceAll("KCTLDBG-FIFO", PLACEHOLDER, fifo) == fifo {
      ReplaceOnce(PLACEHOLDER, fifo, "");
      assert PLACEHOLDER + "" == PLACEHOLDER && fifo + "" == fifo;
    }
  }

  /** The vector handed to the container: the shim is copied, then rewritten in place. */
  method BuildCommand(shim: seq<string>, command: seq<string>, fifo: string) returns (args: seq<string>)
    ensures |args| == |shim| + |command|
    ensures forall i :: 0 <= i < |shim| ==> args[i] == ReplaceAll(shim[i], PLACEHOLDER, fifo)
    ensures args[|shim|..] == command
    ensures Inert(fifo, PLACEHOLDER) ==> forall i :: 0 <= i < |shim| ==> !Occurs(args[i], PLACEHOLDER)
  {
    var cmd := new string[|shim|](i requires 0 <= i < |shim| => shim[i]);
    for i := 0 to cmd.Length
      invariant forall j :: 0 <= j < i ==> cmd[j] == ReplaceAll(shim[j], PLACEHOLDER, fifo)
      invariant forall j :: i <= j < cmd.Length ==> cmd[j] == shim[j]
    {
      cmd[i] := ReplaceAll(cmd[i], PLACEHOLDER, fifo);
    }
    args := cmd[..] + command;
    assert forall i :: 0 <= i < |shim| ==> args[i] == cmd[i];
    if Inert(fifo, PLACEHOLDER) {
      forall i | 0 <= i < |shim| ensures !Occurs(args[i], PLACEHOLDER) {
        InertSuffices(shim[i], PLACEHOLDER, fifo);
      }
    }
  }
}
