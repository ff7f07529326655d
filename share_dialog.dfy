/** The share dialog: the username search, the list of users picked to share
    with, and the share that inserts one share row and one notification per
    picked user. */
module ShareDialog {
  import opened Wrappers
  import opened Text
  import opened Seqs
  import opened Rows
  import opened Store

  /** The fewest UTF-16 code units (`searchQuery.length`) that start a search. */
  const MinQueryLength := 2
  /** The `limit` of the search query. */
  const SearchLimit := 10

  /** A query is too short to search exactly when it is empty or a single
      character of the Basic Multilingual Plane; one emoji already searches. */
  lemma ShortQueries(q: string)
    ensures Utf16Length(q) < MinQueryLength <==> q == [] || (|q| == 1 && q[0] as int < 0x1_0000)
    ensures Utf16Length("\U{1F600}") == MinQueryLength
  {
    if |q| >= 2 {
      assert Utf16Length(q) >= |q|;
    }
    assert "\U{1F600}"[1..] == [];
  }

  /** `ilike('username', query + '%')`: the username starts with the query,
      ignoring case. */
  predicate UsernameMatches(p: Profile, query: string) {
    StartsWith(Lower(p.username), Lower(query))
  }

  /** A row the search query can return: a matching username, not the
      searching user. */
  predicate Candidate(p: Profile, query: string, me: Id) {
    UsernameMatches(p, query) && p.id != me
  }

  /** `selectedUsers.some(u => u.id === id)` */
  predicate IsPicked(picked: seq<Profile>, id: Id) {
    exists i :: 0 <= i < |picked| && picked[i].id == id
  }

  /** Kept by the client-side filter: not already shared with, not already
      picked. */
  predicate Fresh(p: Profile, currentShares: seq<Id>, picked: seq<Profile>) {
    p.id !in currentShares && !IsPicked(picked, p.id)
  }

  /** `searchUsers`: the first ten candidates, then those not yet shared with
      or picked. */
  function SearchResults(profiles: seq<Profile>, query: string, me: Id, currentShares: seq<Id>, picked: seq<Profile>): seq<Profile> {
    Filter(Take(Filter(profiles, (p: Profile) => Candidate(p, query, me)), SearchLimit),
           (p: Profile) => Fresh(p, currentShares, picked))
  }

  /** Every result matches the query, is someone else, is neither shared
      with nor picked, and at most ten come back in store order. When at
      most ten profiles match, every fresh match is among them. */
  lemma SearchResultsSpec(profiles: seq<Profile>, query: string, me: Id, currentShares: seq<Id>, picked: seq<Profile>)
    ensures var r := SearchResults(profiles, query, me, currentShares, picked);
      && |r| <= SearchLimit
      && IsSubseq(r, profiles)
      && (forall i :: 0 <= i < |r| ==> Candidate(r[i], query, me) && Fresh(r[i], currentShares, picked))
      && (|Filter(profiles, (p: Profile) => Candidate(p, query, me))| <= SearchLimit ==>
            forall p :: p in profiles && Candidate(p, query, me) && Fresh(p, currentShares, picked) ==> p in r)
  {
    var cand := (p: Profile) => Candidate(p, query, me);
    var isFresh := (p: Profile) => Fresh(p, currentShares, picked);
    var matches := Filter(profiles, cand);
    var first := Take(matches, SearchLimit);
    var r := Filter(first, isFresh);
    FilterIsSubseq(profiles, cand);
    TakeIsSubseq(matches, SearchLimit);
    FilterIsSubseq(first, isFresh);
    SubseqTrans(r, first, matches);
    SubseqTrans(r, matches, profiles);
    forall i | 0 <= i < |r| ensures Candidate(r[i], query, me) {
      var k :| 0 <= k < |first| && first[k] == r[i];
      assert first[k] == matches[k];
    }
    if |matches| <= SearchLimit {
      forall p | p in profiles && Candidate(p, query, me) && Fresh(p, currentShares, picked) ensures p in r {
        var i :| 0 <= i < |profiles| && profiles[i] == p;
        var k :| 0 <= k < |first| && first[k] == p;
      }
    }
  }

  /** No user is picked twice. */
  predicate DistinctUsers(picked: seq<Profile>) {
    forall i, j :: 0 <= i < j < |picked| ==> picked[i].id != picked[j].id
  }

  /** The rows `handleShare` inserts into `file_shares`. */
  function ShareBatch(fileId: Id, me: Id, picked: seq<Profile>): (r: seq<NewShare>)
    ensures |r| == |picked|
    ensures forall i :: 0 <= i < |r| ==> r[i].fileId == fileId && r[i].sharedByUserId == me
  {
    seq(|picked|, i requires 0 <= i < |picked| => NewShare(fileId, picked[i].id, me))
  }

  /** The message of a share notification. */
  function ShareMessage(filename: string): string {
    "shared \"" + filename + "\" with you"
  }

  /** The rows `handleShare` inserts into `notifications`. */
  function NotificationBatch(fileId: Id, filename: string, me: Id, picked: seq<Profile>): (r: seq<NewNotification>)
    ensures |r| == |picked|
    ensures forall i :: 0 <= i < |r| ==>
      r[i].senderId == me && r[i].kind == "file_shared" && r[i].fileId == Some(fileId) && r[i].message == ShareMessage(filename)
  {
    seq(|picked|, i requires 0 <= i < |picked| =>
      NewNotification(picked[i].id, me, "file_shared", Some(fileId), ShareMessage(filename)))
  }

  /** Each picked user gets one share row and one notification, in the same
      position of the two batches; nobody else gets either. */
  lemma BatchesAgree(fileId: Id, filename: string, me: Id, picked: seq<Profile>)
    ensures var shares := ShareBatch(fileId, me, picked);
      var notes := NotificationBatch(fileId, filename, me, picked);
      && (forall i :: 0 <= i < |picked| ==> shares[i].sharedWithUserId == picked[i].id == notes[i].recipientId)
      && (forall id :: (exists i :: 0 <= i < |shares| && shares[i].sharedWithUserId == id) <==> IsPicked(picked, id))
  {
    var shares := ShareBatch(fileId, me, picked);
    forall id | IsPicked(picked, id) ensures exists i :: 0 <= i < |shares| && shares[i].sharedWithUserId == id {
      var i :| 0 <= i < |picked| && picked[i].id == id;
      assert shares[i].sharedWithUserId == id;
    }
  }

  /** A share the dialog inserts never grants the sharer access to their own
      file, and never grants one user twice, as long as nobody is picked
      twice and the sharer is not picked. */
  lemma ShareRowsWellFormed(fileId: Id, me: Id, picked: seq<Profile>, firstId: nat, now: int)
    requires DistinctUsers(picked) && !IsPicked(picked, me)
    ensures var rows := ShareRowsOf(ShareBatch(fileId, me, picked), firstId, now);
      && (forall i :: 0 <= i < |rows| ==> rows[i].sharedWithUserId != rows[i].sharedByUserId && rows[i].fileId == fileId)
      && (forall i, j :: 0 <= i < j < |rows| ==> rows[i].sharedWithUserId != rows[j].sharedWithUserId)
  {
    var rows := ShareRowsOf(ShareBatch(fileId, me, picked), firstId, now);
    forall i | 0 <= i < |rows| ensures rows[i].sharedWithUserId == picked[i].id {
    }
  }

  /** The dialog's state for one file. */
  class Dialog {
    /** The signed-in user, read from the session. */
    const me: Id
    const fileId: Id
    const filename: string
    var query: string
    var results: seq<Profile>
    var picked: seq<Profile>
    var currentShares: seq<Id>

    /** Nobody is picked twice, the user never picks themself, and no result
        is already picked. */
    ghost predicate Valid()
      reads this
    {
      && DistinctUsers(picked)
      && !IsPicked(picked, me)
      && forall i :: 0 <= i < |results| ==> results[i].id != me && !IsPicked(picked, results[i].id)
    }

    constructor (me: Id, fileId: Id, filename: string)
      ensures this.me == me && this.fileId == fileId && this.filename == filename
      ensures query == "" && results == [] && picked == [] && currentShares == []
      ensures Valid()
    {
      this.me, this.fileId, this.filename := me, fileId, filename;
      query, results, picked, currentShares := "", [], [], [];
    }

    /** `loadCurrentShares`: the users the file is shared with, when the query
        succeeded. */
    method LoadCurrentShares(db: Backend, reply: Reply)
      modifies this`currentShares
      ensures currentShares == if reply.Ok? then SharedWith(db.shares, fileId) else old(currentShares)
    {
      if reply.Ok? {
        currentShares := SharedWith(db.shares, fileId);
      }
    }

    /** Typing in the search box: a query of at least two UTF-16 code units
        runs the search, whose results replace the list when it succeeds; a
        shorter one clears the list. */
    method SetQuery(db: Backend, q: string, reply: Reply)
      modifies this`query, this`results
      ensures query == q
      ensures results == if Utf16Length(q) < MinQueryLength then []
                         else if reply.Ok? then SearchResults(db.profiles, q, me, currentShares, picked)
                         else old(results)
      ensures old(Valid()) ==> Valid()
    {
      query := q;
      if Utf16Length(q) < MinQueryLength {
        results := [];
      } else if reply.Ok? {
        results := SearchResults(db.profiles, q, me, currentShares, picked);
        SearchResultsSpec(db.profiles, q, me, currentShares, picked);
      }
    }

    /** `addUser`: the profile is appended and the search cleared. */
    method AddUser(p: Profile)
      modifies this`picked, this`query, this`results
      ensures picked == old(picked) + [p] && query == "" && results == []
      ensures old(Valid()) && p in old(results) ==> Valid()
    {
      ghost var before := picked;
      picked := picked + [p];
      query := "";
      results := [];
      if old(Valid()) && p in old(results) {
        forall id | IsPicked(picked, id) ensures id == p.id || IsPicked(before, id) {
          var i :| 0 <= i < |picked| && picked[i].id == id;
          if i < |before| {
            assert before[i].id == id;
          }
        }
      }
    }

    /** `removeUser`: every picked entry with that id goes. */
    method RemoveUser(id: Id)
      modifies this`picked
      ensures picked == Filter(old(picked), (u: Profile) => u.id != id)
      ensures old(Valid()) ==> Valid()
    {
      ghost var before := picked;
      picked := Filter(picked, (u: Profile) => u.id != id);
      if old(Valid()) {
        RemovePickedKeepsDistinct(before, id);
        forall x | IsPicked(picked, x) ensures IsPicked(before, x) {
          var i :| 0 <= i < |picked| && picked[i].id == x;
          var k :| 0 <= k < |before| && before[k] == picked[i];
        }
      }
    }

    /** `handleShare`: nothing without a pick; otherwise the share rows go in
        as one batch, and only after they did the notifications follow. A
        failed notification insert is only logged: the dialog still closes. */
    method HandleShare(db: Backend, shareReply: Reply, notifyReply: Reply, now: int) returns (closed: bool)
      modifies db`shares, db`notifications, db`nextId
      ensures closed == (picked != [] && shareReply.Ok?)
      ensures db.shares == if closed then old(db.shares) + ShareRowsOf(ShareBatch(fileId, me, picked), old(db.nextId), now)
                           else old(db.shares)
      ensures db.notifications ==
        if closed && notifyReply.Ok?
        then old(db.notifications) + NotificationRowsOf(NotificationBatch(fileId, filename, me, picked), old(db.nextId) + |picked|, now)
        else old(db.notifications)
      ensures db.nextId == old(db.nextId) + (if closed then |picked| + (if notifyReply.Ok? then |picked| else 0) else 0)
    {
      closed := false;
      if picked == [] {
        return;
      }
      var shared := db.InsertShares(ShareBatch(fileId, me, picked), now, shareReply);
      if !shared {
        return;
      }
      var notified := db.InsertNotifications(NotificationBatch(fileId, filename, me, picked), now, notifyReply);
      closed := true;
    }
  }

  /** The users a file is shared with, one entry per share row. */
  function SharedWith(shares: seq<ShareRow>, fileId: Id): (r: seq<Id>)
    ensures forall x :: x in r <==> exists s :: s in shares && s.fileId == fileId && s.sharedWithUserId == x
  {
    var rows := Filter(shares, (s: ShareRow) => s.fileId == fileId);
    var r := seq(|rows|, i requires 0 <= i < |rows| => rows[i].sharedWithUserId);
    assert forall x :: x in r ==> exists s :: s in shares && s.fileId == fileId && s.sharedWithUserId == x by {
      forall x | x in r ensures exists s :: s in shares && s.fileId == fileId && s.sharedWithUserId == x {
        var i :| 0 <= i < |r| && r[i] == x;
        assert rows[i] in shares;
      }
    }
    assert forall s :: s in shares && s.fileId == fileId ==> s.sharedWithUserId in r by {
      forall s | s in shares && s.fileId == fileId ensures s.sharedWithUserId in r {
        var k :| 0 <= k < |shares| && shares[k] == s;
        var i :| 0 <= i < |rows| && rows[i] == s;
        assert r[i] == s.sharedWithUserId;
      }
    }
    r
  }

  lemma RemovePickedKeepsDistinct(picked: seq<Profile>, id: Id)
    requires DistinctUsers(picked)
    ensures DistinctUsers(Filter(picked, (u: Profile) => u.id != id))
  {
    var keep := (u: Profile) => u.id != id;
    FilterIsSubseq(picked, keep);
    SubseqDistinct(Filter(picked, keep), picked);
  }

  lemma {:induction false} SubseqDistinct(a: seq<Profile>, b: seq<Profile>)
    requires IsSubseq(a, b) && DistinctUsers(b)
    ensures DistinctUsers(a)
    decreases |b|
  {
    if a != [] {
      assert forall i, j :: 0 <= i < j < |b| - 1 ==> b[1..][i] == b[i + 1] && b[1..][j] == b[j + 1];
      if a[0] == b[0] && IsSubseq(a[1..], b[1..]) {
        SubseqDistinct(a[1..], b[1..]);
        SubseqElements(a[1..], b[1..]);
        forall j | 0 < j < |a| ensures a[0].id != a[j].id {
          assert a[1..][j - 1] == a[j];
          var k :| 0 <= k < |b[1..]| && b[1..][k] == a[j];
          assert b[k + 1] == a[j];
        }
      } else {
        SubseqDistinct(a, b[1..]);
      }
    }
  }
}
