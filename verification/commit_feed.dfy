/**
 * The commit list held by the dashboard and the merge step that runs on the
 * main queue after each periodic commit fetch.
 *
 * A commit is identified by its SHA; the fetched list arrives newest first.
 * The merge keeps the fetched commits whose SHA is not yet held, in fetched
 * order, puts that block in front of the held list and, when notifications
 * are enabled and the block is non-empty, sends one notification that
 * reports its size.
 */
module CommitFeed {
  import opened Wrappers
  import opened Decimal

  datatype Commit = Commit(sha: string, message: string, authorName: string, authorDate: string)

  /** The set of SHAs of a commit list. */
  function Shas(commits: seq<Commit>): (ids: set<string>)
    ensures forall i :: 0 <= i < |commits| ==> commits[i].sha in ids
    ensures forall id :: id in ids ==> exists i :: 0 <= i < |commits| && commits[i].sha == id
  {
    set c | c in commits :: c.sha
  }

  /** No two positions of the list carry the same SHA. */
  predicate UniqueShas(commits: seq<Commit>) {
    forall i, j :: 0 <= i < j < |commits| ==> commits[i].sha != commits[j].sha
  }

  /** The fetched commits whose SHA is not in `seen`, in fetched order. */
  function Unseen(seen: set<string>, fetched: seq<Commit>): (kept: seq<Commit>)
    ensures |kept| <= |fetched|
    ensures forall c :: c in kept <==> c in fetched && c.sha !in seen
  {
    if fetched == [] then []
    else (if fetched[0].sha in seen then [] else [fetched[0]]) + Unseen(seen, fetched[1..])
  }

  /** The held list after a merge: the unseen block followed by the old list. */
  function Merged(current: seq<Commit>, fetched: seq<Commit>): (m: seq<Commit>)
    ensures |current| <= |m| <= |current| + |fetched|
    ensures m[|m| - |current|..] == current
    ensures forall c :: c in m <==> c in current || (c in fetched && c.sha !in Shas(current))
  {
    Unseen(Shas(current), fetched) + current
  }

  /** The filter distributes over concatenation, so it keeps the fetched order. */
  lemma {:induction false} UnseenAppend(seen: set<string>, a: seq<Commit>, b: seq<Commit>)
    ensures Unseen(seen, a + b) == Unseen(seen, a) + Unseen(seen, b)
  {
    if a != [] {
      assert (a + b)[0] == a[0] && (a + b)[1..] == a[1..] + b;
      UnseenAppend(seen, a[1..], b);
    } else {
      assert a + b == b;
    }
  }

  /** A single commit is kept exactly when its SHA is unseen. */
  lemma UnseenSingle(seen: set<string>, c: Commit)
    ensures Unseen(seen, [c]) == if c.sha in seen then [] else [c]
  {
    assert [c][1..] == [];
  }

  /** When no fetched SHA has been seen, the filter keeps everything, duplicates included. */
  lemma {:induction false} UnseenKeepsAllNew(seen: set<string>, fetched: seq<Commit>)
    requires forall c :: c in fetched ==> c.sha !in seen
    ensures Unseen(seen, fetched) == fetched
  {
    if fetched != [] {
      UnseenKeepsAllNew(seen, fetched[1..]);
    }
  }

  /** The filter leaves nothing exactly when every fetched SHA has been seen. */
  lemma UnseenEmpty(seen: set<string>, fetched: seq<Commit>)
    ensures Unseen(seen, fetched) == [] <==> forall c :: c in fetched ==> c.sha in seen
  {
    if Unseen(seen, fetched) == [] {
      forall c | c in fetched ensures c.sha in seen {
        assert c !in Unseen(seen, fetched);
      }
    } else {
      var k := Unseen(seen, fetched)[0];
      assert k in Unseen(seen, fetched);
    }
  }

  /** Dropping the head of a unique-SHA list keeps it unique, and no later SHA equals the head's. */
  lemma UniqueShasTail(s: seq<Commit>)
    requires |s| > 0 && UniqueShas(s)
    ensures UniqueShas(s[1..])
    ensures forall c :: c in s[1..] ==> c.sha != s[0].sha
  {
    var tail := s[1..];
    forall i, j | 0 <= i < j < |tail| ensures tail[i].sha != tail[j].sha {
      assert tail[i] == s[i + 1] && tail[j] == s[j + 1];
    }
    forall c | c in tail ensures c.sha != s[0].sha {
      var k :| 0 <= k < |tail| && tail[k] == c;
      assert s[k + 1] == c;
    }
  }

  /** Putting a commit with a new SHA in front of a unique-SHA list keeps it unique. */
  lemma UniqueShasCons(c: Commit, s: seq<Commit>)
    requires UniqueShas(s)
    requires forall d :: d in s ==> d.sha != c.sha
    ensures UniqueShas([c] + s)
  {
    var l := [c] + s;
    forall i, j | 0 <= i < j < |l| ensures l[i].sha != l[j].sha {
      assert l[j] == s[j - 1] && l[j] in s;
      if i > 0 {
        assert l[i] == s[i - 1];
      }
    }
  }

  /** A filtered list of unique SHAs still has unique SHAs. */
  lemma {:induction false} UnseenUnique(seen: set<string>, fetched: seq<Commit>)
    requires UniqueShas(fetched)
    ensures UniqueShas(Unseen(seen, fetched))
  {
    if fetched != [] {
      UniqueShasTail(fetched);
      UnseenUnique(seen, fetched[1..]);
      if fetched[0].sha !in seen {
        UniqueShasCons(fetched[0], Unseen(seen, fetched[1..]));
      }
    }
  }

  /** Merging unique-SHA lists gives a unique-SHA list. */
  lemma MergedUnique(current: seq<Commit>, fetched: seq<Commit>)
    requires UniqueShas(current) && UniqueShas(fetched)
    ensures UniqueShas(Merged(current, fetched))
  {
    var block := Unseen(Shas(current), fetched);
    UnseenUnique(Shas(current), fetched);
    var m := block + current;
    forall i, j | 0 <= i < j < |m| ensures m[i].sha != m[j].sha {
      if j < |block| {
        assert m[i] == block[i] && m[j] == block[j];
      } else if i < |block| {
        assert m[i] in block;
        assert m[j] == current[j - |block|];
        assert m[j] in current;
      } else {
        assert m[i] == current[i - |block|] && m[j] == current[j - |block|];
      }
    }
  }

  /** Without the uniqueness of the fetched list, the merged list may repeat a SHA. */
  lemma DuplicateFetchedShasSurvive(c: Commit)
    ensures Merged([], [c, c]) == [c, c]
    ensures !UniqueShas(Merged([], [c, c]))
  {
    UnseenKeepsAllNew({}, [c, c]);
  }

  /** Every fetched SHA is held after a merge. */
  lemma MergedCoversFetched(current: seq<Commit>, fetched: seq<Commit>)
    ensures forall c :: c in fetched ==> c.sha in Shas(Merged(current, fetched))
  {
    var m := Merged(current, fetched);
    forall c | c in fetched ensures c.sha in Shas(m) {
      if c.sha in Shas(current) {
        var d :| d in current && d.sha == c.sha;
        assert d in m;
      } else {
        assert c in Unseen(Shas(current), fetched);
        assert c in m;
      }
    }
  }

  /** Merging the same fetched list a second time adds nothing. */
  lemma SecondMergeAddsNothing(current: seq<Commit>, fetched: seq<Commit>)
    ensures Unseen(Shas(Merged(current, fetched)), fetched) == []
    ensures Merged(Merged(current, fetched), fetched) == Merged(current, fetched)
  {
    MergedCoversFetched(current, fetched);
    UnseenEmpty(Shas(Merged(current, fetched)), fetched);
  }

  /** Merging a list into itself adds nothing. */
  lemma SelfMergeAddsNothing(current: seq<Commit>)
    ensures Merged(current, current) == current
  {
    UnseenEmpty(Shas(current), current);
  }

  datatype Notification = Notification(title: string, body: string)

  const NewCommitsTitle := "New commits available!"
  const BodyPrefix := "There are "
  const BodySuffix := " new commits."

  /** The body of the new-commits notification; the count can be read back from it. */
  function NewCommitsBody(count: nat): (body: string)
    ensures |body| > |BodyPrefix| + |BodySuffix|
    ensures body[..|BodyPrefix|] == BodyPrefix
    ensures body[|body| - |BodySuffix|..] == BodySuffix
    ensures ParseNat(body[|BodyPrefix|..|body| - |BodySuffix|]) == Some(count)
  {
    var digits := NatToString(count);
    var body := BodyPrefix + digits + BodySuffix;
    assert body[|BodyPrefix|..|body| - |BodySuffix|] == digits;
    ParseNatToString(count);
    body
  }

  /** The notification a merge sends, if any. */
  function MergeNotifications(added: nat, enabled: bool): (sent: seq<Notification>)
    ensures |sent| <= 1
    ensures |sent| == 1 <==> added > 0 && enabled
    ensures forall n :: n in sent ==> n.title == NewCommitsTitle && n.body == NewCommitsBody(added)
  {
    if added > 0 && enabled then [Notification(NewCommitsTitle, NewCommitsBody(added))] else []
  }

  /** Held [a, b, c] and fetched [x, a, b, c]: x goes in front of the held list. */
  lemma OneNewCommitExample(a: Commit, b: Commit, c: Commit, x: Commit)
    requires x.sha != a.sha && x.sha != b.sha && x.sha != c.sha
    ensures Merged([a, b, c], [x, a, b, c]) == [x, a, b, c]
  {
    var held := [a, b, c];
    var seen := Shas(held);
    assert forall i :: 0 <= i < |held| ==> held[i].sha != x.sha;
    assert x.sha !in seen;
    assert [x, a, b, c] == [x] + held;
    UnseenAppend(seen, [x], held);
    UnseenSingle(seen, x);
    SelfMergeAddsNothing(held);
  }

  /** One new commit is reported as such when notifications are on, and not at all otherwise. */
  lemma OneNewCommitNotification()
    ensures MergeNotifications(1, true) == [Notification(NewCommitsTitle, "There are 1 new commits.")]
    ensures MergeNotifications(1, false) == []
  {
    assert DigitChar(1) == '1';
    assert NatToString(1) == "1";
    assert NewCommitsBody(1) == "There are " + "1" + " new commits." == "There are 1 new commits.";
  }

  /** What a merge of `fetched` into `current` establishes, gathered for the merge method. */
  lemma MergeFacts(current: seq<Commit>, fetched: seq<Commit>, m: seq<Commit>)
    requires m == Unseen(Shas(current), fetched) + current
    ensures m == Merged(current, fetched)
    ensures Unseen(Shas(current), fetched) == [] <==> forall c :: c in fetched ==> c.sha in Shas(current)
    ensures UniqueShas(current) && UniqueShas(fetched) ==> UniqueShas(m)
    ensures Unseen(Shas(m), fetched) == []
  {
    UnseenEmpty(Shas(current), fetched);
    MergedCoversFetched(current, fetched);
    UnseenEmpty(Shas(m), fetched);
    if UniqueShas(current) && UniqueShas(fetched) {
      MergedUnique(current, fetched);
    }
  }

  /** The dashboard state the periodic refresh updates in place. */
  class Dashboard {
    var commits: seq<Commit>
    var notificationsEnabled: bool
    /** The notifications sent so far, oldest first. */
    ghost var sent: seq<Notification>

    constructor (initial: seq<Commit>, enabled: bool)
      ensures commits == initial && notificationsEnabled == enabled && sent == []
    {
      commits := initial;
      notificationsEnabled := enabled;
      sent := [];
    }

    /** The main-queue merge of a freshly fetched list into `commits`. */
    method MergeFetched(fetched: seq<Commit>)
      modifies this
      ensures commits == Merged(old(commits), fetched)
      ensures |commits| - |old(commits)| == |Unseen(Shas(old(commits)), fetched)|
      ensures notificationsEnabled == old(notificationsEnabled)
      ensures sent == old(sent) + MergeNotifications(|commits| - |old(commits)|, notificationsEnabled)
      ensures (forall c :: c in fetched ==> c.sha in Shas(old(commits))) ==>
                commits == old(commits) && sent == old(sent)
      ensures UniqueShas(old(commits)) && UniqueShas(fetched) ==> UniqueShas(commits)
      ensures Unseen(Shas(commits), fetched) == []
    {
      var currentShas := Shas(commits);
      var newCommits := Unseen(currentShas, fetched);
      ghost var notes := MergeNotifications(|newCommits|, notificationsEnabled);
      if newCommits != [] {
        commits := newCommits + commits;
        if notificationsEnabled {
          sent := sent + [Notification(NewCommitsTitle, NewCommitsBody(|newCommits|))];
        }
      }
      assert |commits| - |old(commits)| == |newCommits|;
      assert MergeNotifications(|commits| - |old(commits)|, notificationsEnabled) == notes;
      assert sent == old(sent) + notes;
      MergeFacts(old(commits), fetched, commits);
    }

    /**
     * One periodic refresh: `None` stands for a fetch or decode that threw,
     * which is only logged; otherwise the fetched list is merged.
     */
    method LoadCommitsOnly(response: Option<seq<Commit>>)
      modifies this
      ensures response.None? ==> commits == old(commits) && sent == old(sent)
      ensures response.Some? ==> commits == Merged(old(commits), response.value)
      ensures response.Some? ==>
                sent == old(sent) + MergeNotifications(|commits| - |old(commits)|, notificationsEnabled)
      ensures notificationsEnabled == old(notificationsEnabled)
    {
      if response.Some? {
        MergeFetched(response.value);
      }
    }
  }
}
