/**
 * Following and profile analytics (backend/controllers/followController.js):
 * toggling a follow between two users with its mirrored lists and counters,
 * recording a mentor profile view at most once per viewer per day, the
 * recent unique viewers, and the week-over-week trend.
 */
module Follow {
  import opened Common

  /** The follow-related fields of a user account. */
  datatype FollowUser = FollowUser(
    following: seq<UserId>,
    followers: seq<UserId>,
    followingCount: nat,
    followersCount: nat)

  /** `Math.max(0, (count || 0) - 1)`. */
  function Dec(n: nat): (r: nat)
    ensures n > 0 ==> r == n - 1
    ensures n == 0 ==> r == 0
  {
    if n == 0 then 0 else n - 1
  }

  /** The filter `id => id.toString() !== x`. */
  function NotId(x: UserId): UserId -> bool {
    (id: UserId) => id != x
  }

  /** `b` is in `a`'s following exactly when `a` is in `b`'s followers. */
  ghost predicate Mutual(users: map<UserId, FollowUser>) {
    forall a, b :: a in users && b in users ==> (b in users[a].following <==> a in users[b].followers)
  }

  /** No list of a user repeats an id, and each counter is its list's length. */
  predicate UserValid(u: FollowUser) {
    && Distinct(u.following) && Distinct(u.followers)
    && u.followingCount == |u.following|
    && u.followersCount == |u.followers|
  }

  /** The follow graph is consistent: the lists mirror each other and every user is valid. */
  ghost predicate GraphValid(users: map<UserId, FollowUser>) {
    Mutual(users) && forall a :: a in users ==> UserValid(users[a])
  }

  /** The follow branch: push onto both lists, raise both counters. */
  function Followed(users: map<UserId, FollowUser>, current: UserId, target: UserId): (r: map<UserId, FollowUser>)
    requires current in users && target in users && current != target
    ensures r.Keys == users.Keys
    ensures r[current] == users[current].(following := users[current].following + [target],
                                          followingCount := users[current].followingCount + 1)
    ensures r[target] == users[target].(followers := users[target].followers + [current],
                                        followersCount := users[target].followersCount + 1)
    ensures forall u :: u in users && u != current && u != target ==> r[u] == users[u]
  {
    var c := users[current];
    var t := users[target];
    users[current := c.(following := c.following + [target], followingCount := c.followingCount + 1)]
         [target := t.(followers := t.followers + [current], followersCount := t.followersCount + 1)]
  }

  /** The unfollow branch: drop every occurrence from both lists, lower both counters but not below 0. */
  function Unfollowed(users: map<UserId, FollowUser>, current: UserId, target: UserId): (r: map<UserId, FollowUser>)
    requires current in users && target in users && current != target
    ensures r.Keys == users.Keys
    ensures r[current] == users[current].(following := Filter(users[current].following, NotId(target)),
                                          followingCount := Dec(users[current].followingCount))
    ensures r[target] == users[target].(followers := Filter(users[target].followers, NotId(current)),
                                        followersCount := Dec(users[target].followersCount))
    ensures forall u :: u in users && u != current && u != target ==> r[u] == users[u]
  {
    var c := users[current];
    var t := users[target];
    users[current := c.(following := Filter(c.following, NotId(target)), followingCount := Dec(c.followingCount))]
         [target := t.(followers := Filter(t.followers, NotId(current)), followersCount := Dec(t.followersCount))]
  }

  /** The users after `toggleFollow` once both exist: unfollow if following, else follow. */
  function Toggled(users: map<UserId, FollowUser>, current: UserId, target: UserId): (r: map<UserId, FollowUser>)
    requires current in users && target in users && current != target
    ensures r.Keys == users.Keys
    ensures target in r[current].following <==> target !in users[current].following
    ensures current in r[target].followers <==> target !in users[current].following
    ensures forall u :: u in users && u != current && u != target ==> r[u] == users[u]
  {
    if target in users[current].following then Unfollowed(users, current, target)
    else Followed(users, current, target)
  }

  /** Dropping an id that occurs once shortens a list by exactly one. */
  lemma {:induction false} RemoveOnce(s: seq<UserId>, x: UserId)
    requires Distinct(s) && x in s
    ensures |Filter(s, NotId(x))| == |s| - 1
  {
    assert s == [s[0]] + s[1..];
    if s[0] == x {
      assert x !in s[1..];
      FilterAll(s[1..], NotId(x));
    } else {
      RemoveOnce(s[1..], x);
    }
  }

  /** Appending an id not yet present keeps a list without repetitions. */
  lemma AppendKeepsDistinct(s: seq<UserId>, x: UserId)
    requires Distinct(s) && x !in s
    ensures Distinct(s + [x])
  {
    var t := s + [x];
    forall i, j | 0 <= i < j < |t| ensures t[i] != t[j] {
      if j == |s| {
        assert t[i] == s[i];
      } else {
        assert t[i] == s[i] && t[j] == s[j];
      }
    }
  }

  /**
   * The mirror property survives an update that touches only the current
   * user's following and the target's followers, changes them only at each
   * other, and leaves the pair followed both ways or neither.
   */
  lemma MutualAfterUpdate(users: map<UserId, FollowUser>, r: map<UserId, FollowUser>,
                          current: UserId, target: UserId, follows: bool)
    requires Mutual(users)
    requires current in users && target in users && current != target
    requires r.Keys == users.Keys
    requires forall u :: u in users && u != current && u != target ==> r[u] == users[u]
    requires r[current].followers == users[current].followers
    requires r[target].following == users[target].following
    requires forall x :: x != target ==> (x in r[current].following <==> x in users[current].following)
    requires forall x :: x != current ==> (x in r[target].followers <==> x in users[target].followers)
    requires (target in r[current].following) == follows && (current in r[target].followers) == follows
    ensures Mutual(r)
  {
    forall a, b | a in r && b in r
      ensures b in r[a].following <==> a in r[b].followers
    {
      if a == current && b == target {
      } else if a == current {
        assert b in r[a].following <==> b in users[a].following;
        if b == current {
          assert r[b].followers == users[b].followers;
        } else {
          assert r[b] == users[b];
        }
        assert b in users[a].following <==> a in users[b].followers;
      } else if b == target {
        assert a in r[b].followers <==> a in users[b].followers;
        if a == target {
          assert r[a].following == users[a].following;
        } else {
          assert r[a] == users[a];
        }
        assert b in users[a].following <==> a in users[b].followers;
      } else {
        if a == target {
          assert r[a].following == users[a].following;
        } else {
          assert r[a] == users[a];
        }
        if b == current {
          assert r[b].followers == users[b].followers;
        } else {
          assert r[b] == users[b];
        }
        assert b in users[a].following <==> a in users[b].followers;
      }
    }
  }

  /** Toggling keeps the follow graph consistent. */
  lemma ToggleKeepsGraphValid(users: map<UserId, FollowUser>, current: UserId, target: UserId)
    requires GraphValid(users)
    requires current in users && target in users && current != target
    ensures GraphValid(Toggled(users, current, target))
  {
    var r := Toggled(users, current, target);
    var c := users[current];
    var t := users[target];
    assert UserValid(c) && UserValid(t);
    assert target in c.following <==> current in t.followers;
    if target in c.following {
      RemoveOnce(c.following, target);
      RemoveOnce(t.followers, current);
      FilterKeepsDistinct(c.following, NotId(target));
      FilterKeepsDistinct(t.followers, NotId(current));
      assert UserValid(r[current]) && UserValid(r[target]);
      MutualAfterUpdate(users, r, current, target, false);
    } else {
      AppendKeepsDistinct(c.following, target);
      AppendKeepsDistinct(t.followers, current);
      assert UserValid(r[current]) && UserValid(r[target]);
      MutualAfterUpdate(users, r, current, target, true);
    }
    forall a | a in r ensures UserValid(r[a]) {
      if a != current && a != target {
        assert r[a] == users[a];
      }
    }
  }

  /** Pushing an id that is absent and then filtering it out gives the list back. */
  lemma {:induction false} PushThenDrop(s: seq<UserId>, x: UserId)
    requires x !in s
    ensures Filter(s + [x], NotId(x)) == s
  {
    FilterAppend(s, x, NotId(x));
    FilterAll(s, NotId(x));
  }

  /** The unfollow branch undoes the follow branch when the pair was not linked either way. */
  lemma UnfollowUndoesFollow(users: map<UserId, FollowUser>, current: UserId, target: UserId)
    requires current in users && target in users && current != target
    requires target !in users[current].following && current !in users[target].followers
    ensures Unfollowed(Followed(users, current, target), current, target) == users
  {
    var r := Followed(users, current, target);
    var r2 := Unfollowed(r, current, target);
    PushThenDrop(users[current].following, target);
    PushThenDrop(users[target].followers, current);
    assert r2[current] == users[current];
    assert r2[target] == users[target];
    assert forall u :: u in users ==> r2[u] == users[u];
  }

  /** Following and then unfollowing restores both users exactly. */
  lemma FollowThenUnfollow(users: map<UserId, FollowUser>, current: UserId, target: UserId)
    requires Mutual(users)
    requires current in users && target in users && current != target
    requires target !in users[current].following
    ensures target in Toggled(users, current, target)[current].following
    ensures Toggled(Toggled(users, current, target), current, target) == users
  {
    assert current !in users[target].followers by {
      assert target in users[current].following <==> current in users[target].followers;
    }
    var r := Followed(users, current, target);
    assert target in r[current].following;
    UnfollowUndoesFollow(users, current, target);
  }

  /** What `toggleFollow` answers: the new state and the target's follower count. */
  datatype ToggleResult = ToggleResult(isFollowing: bool, followersCount: nat)

  /** One recorded profile view; `viewer` is absent for an anonymous visitor. */
  datatype View = View(viewer: Option<UserId>, viewedAt: nat, ipAddress: string)

  /** The view-tracking fields of a mentor profile. */
  datatype MentorViews = MentorViews(
    profileViews: seq<View>,
    totalProfileViews: nat,
    weeklyViewCount: nat,
    lastViewReset: Option<nat>,
    monthlyViewCount: nat)

  const DayMs: int := 24 * 60 * 60 * 1000

  /** The calendar day of an instant, counted in UTC days. */
  function DayOf(t: nat): nat {
    t / DayMs
  }

  /**
   * The `find` callback of `trackProfileView`: an anonymous visitor matches a
   * view from the same address on the same day; a signed-in viewer matches
   * their own view on the same day.
   */
  predicate SameDayView(v: View, viewer: Option<UserId>, ip: string, now: nat) {
    if viewer.None? && v.ipAddress == ip then DayOf(v.viewedAt) == DayOf(now)
    else if viewer.Some? && v.viewer.Some? then v.viewer.value == viewer.value && DayOf(v.viewedAt) == DayOf(now)
    else false
  }

  predicate AlreadyViewed(views: seq<View>, viewer: Option<UserId>, ip: string, now: nat) {
    exists i :: 0 <= i < |views| && SameDayView(views[i], viewer, ip, now)
  }

  /** The filter `view => viewedAt > since`. */
  function ViewedAfter(since: int): View -> bool {
    (v: View) => v.viewedAt > since
  }

  /**
   * A new view as `trackProfileView` records it: push it, count it in the
   * total, restart the weekly count when the last reset is over a week old
   * (or missing), recount the month, then keep only the last 100 views.
   */
  function RecordView(m: MentorViews, viewer: Option<UserId>, ip: string, now: nat, monthAgo: int): (r: MentorViews)
    ensures r.totalProfileViews == m.totalProfileViews + 1
    ensures |r.profileViews| == if |m.profileViews| + 1 > 100 then 100 else |m.profileViews| + 1
    ensures r.profileViews[|r.profileViews| - 1] == View(viewer, now, ip)
    ensures r.profileViews <= (m.profileViews + [View(viewer, now, ip)])[|m.profileViews| + 1 - |r.profileViews|..]
    ensures r.monthlyViewCount == Count(m.profileViews + [View(viewer, now, ip)], ViewedAfter(monthAgo))
    ensures m.lastViewReset.None? || m.lastViewReset.value < now - 7 * DayMs ==>
      r.weeklyViewCount == 1 && r.lastViewReset == Some(now)
    ensures m.lastViewReset.Some? && m.lastViewReset.value >= now - 7 * DayMs ==>
      r.weeklyViewCount == m.weeklyViewCount + 1 && r.lastViewReset == m.lastViewReset
  {
    var views := m.profileViews + [View(viewer, now, ip)];
    var restart := m.lastViewReset.None? || m.lastViewReset.value < now - 7 * DayMs;
    MentorViews(
      if |views| > 100 then views[|views| - 100..] else views,
      m.totalProfileViews + 1,
      if restart then 1 else m.weeklyViewCount + 1,
      if restart then Some(now) else m.lastViewReset,
      Count(views, ViewedAfter(monthAgo)))
  }

  /** Once a view is recorded, the same viewer (or anonymous address) is recognised for the rest of the day. */
  lemma RecordedViewCountsOncePerDay(m: MentorViews, viewer: Option<UserId>, ip: string, now: nat, later: nat, monthAgo: int)
    requires DayOf(later) == DayOf(now)
    ensures AlreadyViewed(RecordView(m, viewer, ip, now, monthAgo).profileViews, viewer, ip, later)
  {
    var vs := RecordView(m, viewer, ip, now, monthAgo).profileViews;
    assert SameDayView(vs[|vs| - 1], viewer, ip, later);
  }

  /** What `trackProfileView` answers. */
  datatype ViewCounts = ViewCounts(totalViews: nat, weeklyViews: nat, monthlyViews: nat)

  /** An entry of `recentViewers`. */
  datatype RecentViewer = RecentViewer(viewer: UserId, viewedAt: nat)

  /**
   * The viewers met scanning the views from the newest back, each the first
   * time it is met and only if not in `seen`.
   */
  function Scan(views: seq<View>, seen: set<UserId>): seq<RecentViewer>
    decreases |views|
  {
    if views == [] then []
    else
      var v := views[|views| - 1];
      var older := views[..|views| - 1];
      if v.viewer.Some? && v.viewer.value !in seen then
        [RecentViewer(v.viewer.value, v.viewedAt)] + Scan(older, seen + {v.viewer.value})
      else Scan(older, seen)
  }

  /** When `u` last viewed the profile, if ever. */
  function LatestViewBy(views: seq<View>, u: UserId): Option<nat>
    decreases |views|
  {
    if views == [] then None
    else if views[|views| - 1].viewer == Some(u) then Some(views[|views| - 1].viewedAt)
    else LatestViewBy(views[..|views| - 1], u)
  }

  /** No viewer of `r` is in `seen`, and none is listed twice. */
  predicate Unseen(r: seq<RecentViewer>, seen: set<UserId>) {
    && (forall i :: 0 <= i < |r| ==> r[i].viewer !in seen)
    && (forall i, j :: 0 <= i < j < |r| ==> r[i].viewer != r[j].viewer)
  }

  /** The scan names nobody already seen, and nobody twice. */
  lemma {:induction false} ScanUnique(views: seq<View>, seen: set<UserId>)
    ensures Unseen(Scan(views, seen), seen)
    decreases |views|
  {
    if views != [] {
      var v := views[|views| - 1];
      var older := views[..|views| - 1];
      if v.viewer.Some? && v.viewer.value !in seen {
        var u := v.viewer.value;
        ScanUnique(older, seen + {u});
        var rest := Scan(older, seen + {u});
        var r := Scan(views, seen);
        assert r == [RecentViewer(u, v.viewedAt)] + rest;
        forall i | 1 <= i < |r| ensures r[i].viewer !in seen + {u} {
          assert r[i] == rest[i - 1];
        }
        forall i, j | 0 <= i < j < |r| ensures r[i].viewer != r[j].viewer {
          assert r[j] == rest[j - 1];
          if i > 0 {
            assert r[i] == rest[i - 1];
          }
        }
      } else {
        ScanUnique(older, seen);
        assert Scan(views, seen) == Scan(older, seen);
      }
    }
  }

  /** Every viewer of `r` is listed with the time of their latest view. */
  predicate AtLatest(r: seq<RecentViewer>, views: seq<View>) {
    forall i :: 0 <= i < |r| ==> LatestViewBy(views, r[i].viewer) == Some(r[i].viewedAt)
  }

  /** Every viewer the scan names is listed with the time of their latest view. */
  lemma {:induction false} ScanTakesLatest(views: seq<View>, seen: set<UserId>)
    ensures AtLatest(Scan(views, seen), views)
    decreases |views|
  {
    if views != [] {
      var v := views[|views| - 1];
      var older := views[..|views| - 1];
      var r := Scan(views, seen);
      if v.viewer.Some? && v.viewer.value !in seen {
        var u := v.viewer.value;
        ScanTakesLatest(older, seen + {u});
        ScanUnique(older, seen + {u});
        var rest := Scan(older, seen + {u});
        assert r == [RecentViewer(u, v.viewedAt)] + rest;
        forall i | 0 <= i < |r| ensures LatestViewBy(views, r[i].viewer) == Some(r[i].viewedAt) {
          if i > 0 {
            assert r[i] == rest[i - 1];
            assert rest[i - 1].viewer !in seen + {u};
            assert LatestViewBy(views, r[i].viewer) == LatestViewBy(older, r[i].viewer);
          }
        }
      } else {
        ScanTakesLatest(older, seen);
        ScanUnique(older, seen);
        assert r == Scan(older, seen);
        forall i | 0 <= i < |r| ensures LatestViewBy(views, r[i].viewer) == Some(r[i].viewedAt) {
          assert r[i].viewer !in seen;
          assert LatestViewBy(views, r[i].viewer) == LatestViewBy(older, r[i].viewer);
        }
      }
    }
  }

  /** The position of `u`'s last view, or -1 if `u` never viewed the profile. */
  function LastPosition(views: seq<View>, u: UserId): (p: int)
    ensures -1 <= p < |views|
    ensures p >= 0 ==> views[p].viewer == Some(u)
    decreases |views|
  {
    if views == [] then -1
    else if views[|views| - 1].viewer == Some(u) then |views| - 1
    else LastPosition(views[..|views| - 1], u)
  }

  /** The scan lists viewers most recent first: each one's last view comes after the next one's. */
  lemma {:induction false} ScanNewestFirst(views: seq<View>, seen: set<UserId>)
    ensures forall i, j :: 0 <= i < j < |Scan(views, seen)| ==>
      LastPosition(views, Scan(views, seen)[j].viewer) < LastPosition(views, Scan(views, seen)[i].viewer)
    ensures forall i :: 0 <= i < |Scan(views, seen)| ==> LastPosition(views, Scan(views, seen)[i].viewer) >= 0
    decreases |views|
  {
    if views != [] {
      var v := views[|views| - 1];
      var older := views[..|views| - 1];
      var r := Scan(views, seen);
      if v.viewer.Some? && v.viewer.value !in seen {
        var u := v.viewer.value;
        ScanNewestFirst(older, seen + {u});
        ScanUnique(older, seen + {u});
        var rest := Scan(older, seen + {u});
        assert r == [RecentViewer(u, v.viewedAt)] + rest;
        forall i | 1 <= i < |r|
          ensures LastPosition(views, r[i].viewer) == LastPosition(older, r[i].viewer)
        {
          assert r[i] == rest[i - 1];
          assert rest[i - 1].viewer !in seen + {u};
        }
        forall i, j | 0 <= i < j < |r|
          ensures LastPosition(views, r[j].viewer) < LastPosition(views, r[i].viewer)
        {
          assert r[j] == rest[j - 1];
          if i > 0 {
            assert r[i] == rest[i - 1];
          }
        }
      } else {
        ScanNewestFirst(older, seen);
        ScanUnique(older, seen);
        assert r == Scan(older, seen);
        forall i | 0 <= i < |r|
          ensures LastPosition(views, r[i].viewer) == LastPosition(older, r[i].viewer)
        {
          assert r[i].viewer !in seen;
        }
      }
    }
  }

  /** Every signed-in viewer not already seen is named by the scan. */
  lemma {:induction false} ScanComplete(views: seq<View>, seen: set<UserId>, u: UserId)
    requires u !in seen && LatestViewBy(views, u).Some?
    ensures exists i :: 0 <= i < |Scan(views, seen)| && Scan(views, seen)[i].viewer == u
    decreases |views|
  {
    var v := views[|views| - 1];
    var older := views[..|views| - 1];
    var r := Scan(views, seen);
    if v.viewer.Some? && v.viewer.value !in seen {
      var w := v.viewer.value;
      if w == u {
        assert r[0].viewer == u;
      } else {
        ScanComplete(older, seen + {w}, u);
        var rest := Scan(older, seen + {w});
        assert r == [RecentViewer(w, v.viewedAt)] + rest;
        var k :| 0 <= k < |rest| && rest[k].viewer == u;
        assert r[k + 1].viewer == u;
      }
    } else {
      ScanComplete(older, seen, u);
    }
  }

  /** One step of the scan: the view at position `i` is looked at before the older ones. */
  lemma ScanStep(views: seq<View>, i: nat, seen: set<UserId>)
    requires i < |views|
    ensures Scan(views[..i + 1], seen) ==
      if views[i].viewer.Some? && views[i].viewer.value !in seen then
        [RecentViewer(views[i].viewer.value, views[i].viewedAt)] + Scan(views[..i], seen + {views[i].viewer.value})
      else Scan(views[..i], seen)
  {
    var p := views[..i + 1];
    assert p[|p| - 1] == views[i];
    assert p[..|p| - 1] == views[..i];
  }

  /**
   * One iteration of the recent-viewers loop keeps "the whole scan is what
   * was collected followed by the scan of the views not yet visited".
   */
  lemma ScanSplitStep(views: seq<View>, i: nat, seen: set<UserId>, recent: seq<RecentViewer>)
    requires i < |views|
    requires Scan(views, {}) == recent + Scan(views[..i + 1], seen)
    ensures var v := views[i];
      if v.viewer.Some? && v.viewer.value !in seen then
        Scan(views, {}) == (recent + [RecentViewer(v.viewer.value, v.viewedAt)]) + Scan(views[..i], seen + {v.viewer.value})
      else Scan(views, {}) == recent + Scan(views[..i], seen)
  {
    ScanStep(views, i, seen);
    var v := views[i];
    if v.viewer.Some? && v.viewer.value !in seen {
      var rv := RecentViewer(v.viewer.value, v.viewedAt);
      var rest := Scan(views[..i], seen + {v.viewer.value});
      assert recent + ([rv] + rest) == (recent + [rv]) + rest;
    }
  }

  /** Limiting to `n` a list that starts with `n` given elements gives those elements. */
  lemma LimitTakesPrefix<T>(a: seq<T>, b: seq<T>, n: nat)
    requires |a| == n > 0
    ensures Limit(a + b, n) == a
  {
    assert (a + b)[..n] == a;
  }

  /** The recent viewers of `getProfileAnalytics`: the first ten of the scan. */
  function RecentViewersSpec(views: seq<View>): (r: seq<RecentViewer>)
    ensures |r| <= 10
  {
    Limit(Scan(views, {}), 10)
  }

  /** The recent viewers are distinct, most recent first, each listed at their latest view. */
  lemma RecentViewersLatestUnique(views: seq<View>)
    ensures Unseen(RecentViewersSpec(views), {})
    ensures AtLatest(RecentViewersSpec(views), views)
    ensures forall i, j :: 0 <= i < j < |RecentViewersSpec(views)| ==>
      LastPosition(views, RecentViewersSpec(views)[j].viewer) < LastPosition(views, RecentViewersSpec(views)[i].viewer)
  {
    var s := Scan(views, {});
    var r := RecentViewersSpec(views);
    ScanUnique(views, {});
    ScanTakesLatest(views, {});
    ScanNewestFirst(views, {});
    assert forall i :: 0 <= i < |r| ==> r[i] == s[i];
  }

  /** The trend of `calculateTrend`: a fixed value, or the two weekly counts whose rounded percentage change it reports. */
  datatype Trend = Fixed(percent: int) | Ratio(thisWeek: nat, lastWeek: nat)

  /** The filter `twoWeeksAgo < viewedAt <= weekAgo`. */
  function ViewedBetween(after: int, upTo: int): View -> bool {
    (v: View) => after < v.viewedAt <= upTo
  }

  /** Two filters no element satisfies together count at most the whole sequence. */
  lemma {:induction false} CountDisjoint(s: seq<View>, p: View -> bool, q: View -> bool)
    requires forall v :: !(p(v) && q(v))
    ensures Count(s, p) + Count(s, q) <= |s|
  {
    if s != [] {
      CountDisjoint(s[1..], p, q);
      assert s == [s[0]] + s[1..];
    }
  }

  /**
   * `calculateTrend`: 0 for fewer than two views; otherwise, with no views in
   * the previous week, 100 if there were any this week and 0 if not.
   */
  function CalculateTrend(views: seq<View>, now: nat): (r: Trend)
    ensures |views| < 2 ==> r == Fixed(0)
    ensures r.Fixed? ==> r.percent == 0 || r.percent == 100
    ensures |views| >= 2 && Count(views, ViewedBetween(now - 14 * DayMs, now - 7 * DayMs)) == 0 ==>
      r == Fixed(if Count(views, ViewedAfter(now - 7 * DayMs)) > 0 then 100 else 0)
    ensures r.Ratio? ==>
      && r.lastWeek > 0
      && r.thisWeek == Count(views, ViewedAfter(now - 7 * DayMs))
      && r.lastWeek == Count(views, ViewedBetween(now - 14 * DayMs, now - 7 * DayMs))
      && r.thisWeek + r.lastWeek <= |views|
  {
    if |views| < 2 then Fixed(0)
    else
      var weekAgo := now - 7 * DayMs;
      var thisWeek := Count(views, ViewedAfter(weekAgo));
      var lastWeek := Count(views, ViewedBetween(now - 14 * DayMs, weekAgo));
      if lastWeek == 0 then Fixed(if thisWeek > 0 then 100 else 0)
      else
        CountDisjoint(views, ViewedAfter(weekAgo), ViewedBetween(now - 14 * DayMs, weekAgo));
        Ratio(thisWeek, lastWeek)
  }

  /** What `getProfileAnalytics` answers. */
  datatype Analytics = Analytics(
    totalViews: nat,
    weeklyViews: nat,
    monthlyViews: nat,
    recentViewers: seq<RecentViewer>,
    viewTrend: Trend)

  /** The users collection, as far as following goes. */
  class FollowGraph {
    var users: map<UserId, FollowUser>

    constructor (initial: map<UserId, FollowUser>)
      ensures users == initial
    {
      users := initial;
    }

    /**
     * `toggleFollow`: refuse a self-follow and an unknown target; a missing
     * current user makes the handler fail; otherwise flip the follow.
     */
    method ToggleFollow(current: UserId, target: UserId) returns (r: Reply<ToggleResult>)
      modifies this
      ensures target == current ==> r == BadRequest && users == old(users)
      ensures target != current && target !in old(users) ==> r == NotFound && users == old(users)
      ensures target != current && target in old(users) && current !in old(users) ==>
        r == ServerError && users == old(users)
      ensures target != current && target in old(users) && current in old(users) ==>
        && users == Toggled(old(users), current, target)
        && r == Ok(ToggleResult(target !in old(users)[current].following, users[target].followersCount))
      ensures old(GraphValid(users)) ==> GraphValid(users)
    {
      if target == current {
        return BadRequest;
      }
      if target !in users {
        return NotFound;
      }
      if current !in users {
        return ServerError;
      }
      if GraphValid(users) {
        ToggleKeepsGraphValid(users, current, target);
      }
      var isFollowing := target in users[current].following;
      var c := users[current];
      var t := users[target];
      if isFollowing {
        users := users[current := c.(following := Filter(c.following, NotId(target)), followingCount := Dec(c.followingCount))];
        users := users[target := t.(followers := Filter(t.followers, NotId(current)), followersCount := Dec(t.followersCount))];
      } else {
        users := users[current := c.(following := c.following + [target], followingCount := c.followingCount + 1)];
        users := users[target := t.(followers := t.followers + [current], followersCount := t.followersCount + 1)];
      }
      r := Ok(ToggleResult(!isFollowing, users[target].followersCount));
    }
  }

  /** The mentor profiles, as far as view tracking goes. */
  class MentorDirectory {
    var mentors: map<string, MentorViews>

    constructor (initial: map<string, MentorViews>)
      ensures mentors == initial
    {
      mentors := initial;
    }

    /**
     * `trackProfileView`: an unknown mentor is 404; a repeat view on the same
     * day changes nothing; otherwise the view is recorded. `monthAgo` is the
     * calendar date one month before `now`.
     */
    method TrackProfileView(mentorId: string, viewer: Option<UserId>, ip: string, now: nat, monthAgo: int)
      returns (r: Reply<ViewCounts>)
      modifies this
      ensures mentorId !in old(mentors) ==> r == NotFound && mentors == old(mentors)
      ensures mentorId in old(mentors) && AlreadyViewed(old(mentors)[mentorId].profileViews, viewer, ip, now) ==>
        mentors == old(mentors)
      ensures mentorId in old(mentors) && !AlreadyViewed(old(mentors)[mentorId].profileViews, viewer, ip, now) ==>
        mentors == old(mentors)[mentorId := RecordView(old(mentors)[mentorId], viewer, ip, now, monthAgo)]
      ensures mentorId in old(mentors) ==>
        r == Ok(ViewCounts(mentors[mentorId].totalProfileViews, mentors[mentorId].weeklyViewCount,
                           mentors[mentorId].monthlyViewCount))
    {
      if mentorId !in mentors {
        return NotFound;
      }
      var m := mentors[mentorId];
      if !AlreadyViewed(m.profileViews, viewer, ip, now) {
        m := RecordView(m, viewer, ip, now, monthAgo);
        mentors := mentors[mentorId := m];
      }
      r := Ok(ViewCounts(m.totalProfileViews, m.weeklyViewCount, m.monthlyViewCount));
    }

    /**
     * The recent-viewers loop of `getProfileAnalytics`: walk the views from
     * the newest back, take each viewer the first time it is met, stop at ten.
     */
    static method RecentViewers(views: seq<View>) returns (recent: seq<RecentViewer>)
      ensures recent == RecentViewersSpec(views)
    {
      recent := [];
      var seen: set<UserId> := {};
      var i := |views| - 1;
      assert views[..i + 1] == views;
      while i >= 0
        invariant -1 <= i < |views|
        invariant Scan(views, {}) == recent + Scan(views[..i + 1], seen)
        invariant |recent| < 10
      {
        var v := views[i];
        ScanSplitStep(views, i, seen, recent);
        if v.viewer.Some? && v.viewer.value !in seen {
          seen := seen + {v.viewer.value};
          recent := recent + [RecentViewer(v.viewer.value, v.viewedAt)];
          if |recent| >= 10 {
            LimitTakesPrefix(recent, Scan(views[..i], seen), 10);
            return;
          }
        }
        i := i - 1;
      }
      assert views[..0] == [];
    }

    /** `getProfileAnalytics` for the caller's mentor profile. */
    method ProfileAnalytics(mentorId: string, now: nat) returns (r: Reply<Analytics>)
      ensures mentorId !in mentors <==> r == NotFound
      ensures r.Ok? ==>
        var m := mentors[mentorId];
        && r.value.totalViews == m.totalProfileViews
        && r.value.weeklyViews == Count(m.profileViews, ViewedAfter(now - 7 * DayMs))
        && r.value.monthlyViews == Count(m.profileViews, ViewedAfter(now - 30 * DayMs))
        && r.value.recentViewers == RecentViewersSpec(m.profileViews)
        && r.value.viewTrend == CalculateTrend(m.profileViews, now)
    {
      if mentorId !in mentors {
        return NotFound;
      }
      var m := mentors[mentorId];
      var recent := RecentViewers(m.profileViews);
      r := Ok(Analytics(m.totalProfileViews,
                        Count(m.profileViews, ViewedAfter(now - 7 * DayMs)),
                        Count(m.profileViews, ViewedAfter(now - 30 * DayMs)),
                        recent, CalculateTrend(m.profileViews, now)));
    }
  }
}
