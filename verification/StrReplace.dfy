/** syndicate/runtime/base.py: the edit tool's single-occurrence replacement. */
module StrReplace {
  import opened PyText

  /** The ValueError carries the number of occurrences that Python counted. */
  datatype Result = Ok(content: string) | ValueError(found: nat)

  /** The leftmost occurrence of sub that starts at or after `from`. */
  function Find(s: string, sub: string, from: nat): (r: Option<nat>)
    requires from <= |s|
    ensures r.Some? ==> from <= r.value && OccursAt(s, sub, r.value)
    ensures forall j | from <= j && (r.Some? ==> j < r.value) :: !OccursAt(s, sub, j)
    decreases |s| - from
  {
    if OccursAt(s, sub, from) then Some(from)
    else if from == |s| then None
    else Find(s, sub, from + 1)
  }

  /** Greedy, non-overlapping matches from `from` on. */
  function CountFrom(s: string, sub: string, from: nat): nat
    requires sub != "" && from <= |s|
    decreases |s| - from
  {
    match Find(s, sub, from)
    case None => 0
    case Some(k) => 1 + CountFrom(s, sub, k + |sub|)
  }

  /** Python's `s.count(sub)`; the empty string is counted at every boundary. */
  function Count(s: string, sub: string): nat {
    if sub == "" then |s| + 1 else CountFrom(s, sub, 0)
  }

  /** Python's `s.replace(old, new, 1)`. */
  function ReplaceFirst(s: string, old_: string, new_: string): string {
    match Find(s, old_, 0)
    case None => s
    case Some(k) => s[..k] + new_ + s[k + |old_|..]
  }

  function Apply(content: string, old_: string, new_: string): Result {
    var count := Count(content, old_);
    if count != 1 then ValueError(count) else Ok(ReplaceFirst(content, old_, new_))
  }

  // ----- what counting means -----

  /** Occurrence positions that do not overlap one another, all at or after `from`. */
  ghost predicate Disjoint(s: string, sub: string, from: nat, at: seq<nat>) {
    && (forall i | 0 <= i < |at| :: from <= at[i] && OccursAt(s, sub, at[i]))
    && (forall i, j | 0 <= i < j < |at| :: at[i] + |sub| <= at[j])
  }

  function GreedyPositions(s: string, sub: string, from: nat): (at: seq<nat>)
    requires sub != "" && from <= |s|
    ensures |at| == CountFrom(s, sub, from)
    ensures Disjoint(s, sub, from, at)
    decreases |s| - from
  {
    match Find(s, sub, from)
    case None => []
    case Some(k) => [k] + GreedyPositions(s, sub, k + |sub|)
  }

  /** The greedy scan finds as many disjoint occurrences as there can be. */
  lemma {:induction false} CountIsMaximal(s: string, sub: string, from: nat, at: seq<nat>)
    requires sub != "" && from <= |s| && Disjoint(s, sub, from, at)
    ensures |at| <= CountFrom(s, sub, from)
    decreases |s| - from
  {
    if at != [] {
      assert OccursAt(s, sub, at[0]);
      var k := Find(s, sub, from).value;
      assert k <= at[0];
      CountIsMaximal(s, sub, k + |sub|, at[1..]);
    }
  }

  // ----- when the edit succeeds, and what it does then -----

  /** The greedy scan finds exactly one match, and it is at i. */
  ghost predicate OnlyMatch(s: string, sub: string, i: int) {
    && OccursAt(s, sub, i)
    && (forall j | 0 <= j < i :: !OccursAt(s, sub, j))
    && (forall j | i + |sub| <= j :: !OccursAt(s, sub, j))
  }

  lemma OnlyMatchIsFirst(s: string, sub: string, i: nat)
    requires sub != "" && OnlyMatch(s, sub, i)
    ensures Find(s, sub, 0) == Some(i) && Count(s, sub) == 1
  {
    assert Find(s, sub, 0) == Some(i);
    assert Find(s, sub, i + |sub|) == None;
    assert CountFrom(s, sub, i + |sub|) == 0;
  }

  lemma OneCountIsOnlyMatch(s: string, sub: string) returns (i: nat)
    requires sub != "" && Count(s, sub) == 1
    ensures OnlyMatch(s, sub, i)
  {
    i := Find(s, sub, 0).value;
    assert CountFrom(s, sub, i + |sub|) == 0;
    assert Find(s, sub, i + |sub|) == None;
  }

  /** The one place that an edit can apply to; an empty pattern has one only in an empty file. */
  ghost predicate StandsAlone(s: string, sub: string, i: int) {
    if sub == "" then s == "" && i == 0 else OnlyMatch(s, sub, i)
  }

  /** With one match, the edit rewrites it and leaves the text on both sides alone. */
  lemma RewritesTheOnlyMatch(content: string, old_: string, new_: string, i: nat)
    requires StandsAlone(content, old_, i)
    ensures i + |old_| <= |content|
    ensures Apply(content, old_, new_) == Ok(content[..i] + new_ + content[i + |old_|..])
  {
    if old_ == "" {
      assert Find("", "", 0) == Some(0);
    } else {
      OnlyMatchIsFirst(content, old_, i);
    }
  }

  /**
   * The edit succeeds exactly when there is one match, counted without
   * overlaps. An empty pattern is accepted only in an empty file.
   */
  lemma SucceedsExactlyOnOneMatch(content: string, old_: string, new_: string)
    ensures Apply(content, old_, new_).Ok? <==>
            exists i: nat :: StandsAlone(content, old_, i)
  {
    if old_ == "" {
      assert content == "" ==> StandsAlone(content, old_, 0);
    } else if Apply(content, old_, new_).Ok? {
      var i := OneCountIsOnlyMatch(content, old_);
      assert StandsAlone(content, old_, i);
    } else if i: nat :| StandsAlone(content, old_, i) {
      OnlyMatchIsFirst(content, old_, i);
    }
  }

  /** An edit that fails tells how many matches there are: disjoint ones, or one for each boundary. */
  lemma ErrorTellsTheCount(content: string, old_: string, new_: string) returns (at: seq<nat>)
    requires Apply(content, old_, new_).ValueError?
    ensures Apply(content, old_, new_) == ValueError(|at|) && |at| != 1
    ensures forall i | 0 <= i < |at| :: OccursAt(content, old_, at[i])
    ensures forall i, j | 0 <= i < j < |at| :: at[i] < at[j] && at[i] + |old_| <= at[j]
    ensures old_ == "" ==> |at| == |content| + 1
  {
    at := if old_ == "" then seq(|content| + 1, i => i) else GreedyPositions(content, old_, 0);
  }

  // ----- undoing an edit -----

  /**
   * Swapping the two strings undoes an edit exactly when the inserted text is
   * found nowhere before the edit and nowhere after it. An overlap that starts
   * inside the inserted text does no harm; one that starts before it does.
   */
  lemma SwapUndoesExactlyWhenAlone(content: string, old_: string, new_: string, i: nat)
    requires StandsAlone(content, old_, i)
    ensures var edited := content[..i] + new_ + content[i + |old_|..];
            Apply(edited, new_, old_) == Ok(content) <==> StandsAlone(edited, new_, i)
  {
    hide Apply;
    var edited := content[..i] + new_ + content[i + |old_|..];
    if old_ == "" {
      assert edited == new_ && content == "";
      AloneInItself(new_);
      RewritesTheOnlyMatch(edited, new_, old_, 0);
    } else if StandsAlone(edited, new_, i) {
      RewritesTheOnlyMatch(edited, new_, old_, i);
      assert edited[..i] + old_ + edited[i + |new_|..] == content;
    } else if Apply(edited, new_, old_) == Ok(content) {
      SucceedsExactlyOnOneMatch(edited, new_, old_);
      var j: nat :| StandsAlone(edited, new_, j);
      if new_ != "" { UndoneHere(content, old_, new_, i, j); }
    }
  }

  /** So the edit of an empty file is always undone. */
  lemma AloneInItself(s: string)
    ensures StandsAlone(s, s, 0)
  {
    assert s[0..|s|] == s;
  }

  lemma UndoneHere(content: string, old_: string, new_: string, i: nat, j: nat)
    requires old_ != "" && new_ != "" && OnlyMatch(content, old_, i)
    requires var edited := content[..i] + new_ + content[i + |old_|..];
             OnlyMatch(edited, new_, j) && Apply(edited, new_, old_) == Ok(content)
    ensures i == j
  {
    var edited := content[..i] + new_ + content[i + |old_|..];
    RewritesTheOnlyMatch(edited, new_, old_, j);
    assert OccursAt(edited, new_, i);
    assert j <= i;
    assert content[j..j + |old_|] == old_;
    assert OccursAt(content, old_, j);
  }

  /** The candidate law "swapping always undoes" fails: "b" to "a" in "ab". */
  lemma SwapCanFail()
    ensures Apply("ab", "b", "a") == Ok("aa")
    ensures Apply("aa", "a", "b").ValueError?
  {
    assert "ab"[0..1] == "a" && "ab"[1..2] == "b";
    assert OnlyMatch("ab", "b", 1);
    RewritesTheOnlyMatch("ab", "b", "a", 1);
    assert "ab"[..1] + "a" + "ab"[2..] == "aa";
    assert OccursAt("aa", "a", 0) && OccursAt("aa", "a", 1);
    if Apply("aa", "a", "b").Ok? {
      var k := OneCountIsOnlyMatch("aa", "a");
      assert false;
    }
  }
}
