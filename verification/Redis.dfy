/** The Redis commands the scripts use: sorted sets ordered by score and then by member, and keys that
    expire. */
module Redis {
  datatype Entry = Entry(score: real, member: string)
  datatype Key<T> = Key(value: T, expires: real)

  type ZSet = seq<Entry>

  predicate LexLess(a: string, b: string) {
    b != [] && (a == [] || a[0] < b[0] || (a[0] == b[0] && LexLess(a[1..], b[1..])))
  }

  predicate Before(x: Entry, y: Entry) {
    x.score < y.score || (x.score == y.score && LexLess(x.member, y.member))
  }

  function Insert(z: ZSet, e: Entry): ZSet {
    if z == [] || Before(e, z[0]) then [e] + z else [z[0]] + Insert(z[1..], e)
  }

  function Without(z: ZSet, member: string): ZSet {
    if z == [] then []
    else (if z[0].member == member then [] else [z[0]]) + Without(z[1..], member)
  }

  function ZAdd(z: ZSet, score: real, member: string): ZSet {
    Insert(Without(z, member), Entry(score, member))
  }

  function ZRemRangeByScore(z: ZSet, lo: real, hi: real): ZSet {
    if z == [] then []
    else (if lo <= z[0].score <= hi then [] else [z[0]]) + ZRemRangeByScore(z[1..], lo, hi)
  }

  /** The value a command finds under k at time now. */
  function Get<T>(m: map<string, Key<T>>, k: string, now: real, absent: T): T {
    if k in m && now <= m[k].expires then m[k].value else absent
  }

  /** Writing back a sorted set keeps its expiry; Redis deletes a key whose set has become empty. */
  function Shrink(m: map<string, Key<ZSet>>, k: string, now: real, z: ZSet): map<string, Key<ZSet>> {
    if k in m && now <= m[k].expires && z != [] then m[k := Key(z, m[k].expires)] else m - {k}
  }

  /** math.ceil */
  function Ceil(r: real): int { -((-r).Floor) }

  function Scores(z: ZSet): seq<real> {
    if z == [] then [] else [z[0].score] + Scores(z[1..])
  }

  lemma {:induction false} WithoutAbsent(z: ZSet, member: string)
    requires forall e :: e in z ==> e.member != member
    ensures Without(z, member) == z
  {
    if z != [] {
      assert z[0] in z;
      WithoutAbsent(z[1..], member);
    }
  }

  lemma {:induction false} ScoresIndex(z: ZSet)
    ensures |Scores(z)| == |z| && forall i :: 0 <= i < |z| ==> Scores(z)[i] == z[i].score
  {
    if z != [] {
      ScoresIndex(z[1..]);
    }
  }

  lemma {:induction false} InsertMembers(z: ZSet, e: Entry)
    ensures forall x :: x in Insert(z, e) ==> x in z || x == e
  {
    if z != [] && !Before(e, z[0]) {
      InsertMembers(z[1..], e);
    }
  }

  lemma {:induction false} RemovalSelects(z: ZSet, lo: real, hi: real)
    ensures forall x :: x in ZRemRangeByScore(z, lo, hi) ==> x in z
  {
    if z != [] {
      RemovalSelects(z[1..], lo, hi);
    }
  }

  lemma {:induction false} WithoutSelects(z: ZSet, member: string)
    ensures forall x :: x in Without(z, member) ==> x in z
  {
    if z != [] {
      WithoutSelects(z[1..], member);
    }
  }
}
