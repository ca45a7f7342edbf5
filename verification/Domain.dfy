/** Strings as the Go standard library treats them, as far as the model needs it. */
module Text {

  /** The characters unicode.IsSpace accepts. */
  predicate IsSpace(c: char) {
    var n := c as int;
    9 <= n <= 13 || n == 32 || n == 0x85 || n == 0xA0 || n == 0x1680
    || 0x2000 <= n <= 0x200a || n == 0x2028 || n == 0x2029 || n == 0x202f || n == 0x205f || n == 0x3000
  }

  function TrimLeft(s: string): string {
    if s != "" && IsSpace(s[0]) then TrimLeft(s[1..]) else s
  }

  function TrimRight(s: string): string {
    if s != "" && IsSpace(s[|s| - 1]) then TrimRight(s[..|s| - 1]) else s
  }

  /** strings.TrimSpace */
  function Trim(s: string): string {
    TrimRight(TrimLeft(s))
  }

  predicate IsBlank(s: string) {
    Trim(s) == ""
  }

  function FirstNonEmpty(a: string, b: string): string {
    if !IsBlank(a) then a else if !IsBlank(b) then b else ""
  }

  lemma TrimRightKeepsFirst(s: string)
    ensures TrimRight(s) == "" || (s != "" && TrimRight(s)[0] == s[0])
  {
  }

  lemma TrimRightIdempotent(s: string)
    ensures TrimRight(TrimRight(s)) == TrimRight(s)
  {
  }

  lemma TrimLeftStable(s: string)
    ensures TrimLeft(s) == "" || !IsSpace(TrimLeft(s)[0])
  {
  }

  /** Trimming twice is trimming once. */
  lemma {:induction false} TrimIdempotent(s: string)
    ensures Trim(Trim(s)) == Trim(s)
  {
    TrimLeftStable(s);
    TrimRightKeepsFirst(TrimLeft(s));
    TrimRightIdempotent(TrimLeft(s));
  }

  /** What trimming leaves is the text between outer blanks, and neither begins nor ends with one. */
  ghost predicate TrimsTo(s: string, i: nat, j: nat) {
    && i <= j <= |s| && Trim(s) == s[i..j]
    && (forall k :: 0 <= k < i || j <= k < |s| ==> IsSpace(s[k]))
    && (i < j ==> !IsSpace(s[i]) && !IsSpace(s[j - 1]))
  }

  lemma {:induction false} TrimLeftCuts(s: string) returns (i: nat)
    ensures i <= |s| && TrimLeft(s) == s[i..] && (forall k :: 0 <= k < i ==> IsSpace(s[k]))
    ensures i < |s| ==> !IsSpace(s[i])
  {
    i := 0;
    if s != "" && IsSpace(s[0]) {
      i := TrimLeftCuts(s[1..]);
      assert forall k :: 1 <= k < i + 1 ==> s[k] == s[1..][k - 1];
      i := i + 1;
    }
  }

  lemma {:induction false} TrimRightCuts(s: string) returns (j: nat)
    ensures j <= |s| && TrimRight(s) == s[..j] && (forall k :: j <= k < |s| ==> IsSpace(s[k]))
    ensures 0 < j ==> !IsSpace(s[j - 1])
  {
    j := |s|;
    if s != "" && IsSpace(s[|s| - 1]) {
      j := TrimRightCuts(s[..|s| - 1]);
    }
  }

  lemma TrimCuts(s: string)
    ensures exists i: nat, j: nat :: TrimsTo(s, i, j)
  {
    var i := TrimLeftCuts(s);
    var n := TrimRightCuts(s[i..]);
    assert Trim(s) == s[i..i + n];
    assert forall k :: i + n <= k < |s| ==> s[k] == s[i..][k - i];
    assert TrimsTo(s, i, i + n);
  }

  /** The byte order Go uses for strings: lexicographic by code point. */
  predicate Before(a: string, b: string) {
    b != "" && (a == "" || a[0] < b[0] || (a[0] == b[0] && Before(a[1..], b[1..])))
  }

  /** The texts agree before position k, and there the first has the smaller character. */
  predicate FirstDiffer(a: string, b: string, k: nat) {
    k < |a| && k < |b| && a[..k] == b[..k] && a[k] < b[k]
  }

  /** A text comes before those it is a beginning of, and before those it first differs from by a smaller character. */
  lemma {:induction false} BeforeExactly(a: string, b: string)
    ensures Before(a, b) <==> a < b || exists k: nat :: FirstDiffer(a, b, k)
  {
    if a != "" && b != "" {
      var x, y := a[1..], b[1..];
      assert a == [a[0]] + x && b == [b[0]] + y;
      if a[0] == b[0] {
        BeforeExactly(x, y);
        assert a < b <==> x < y;
        if k: nat :| FirstDiffer(x, y, k) { assert FirstDiffer(a, b, k + 1); }
        if k: nat :| FirstDiffer(a, b, k) {
          assert k > 0 && x[..k - 1] == a[..k][1..] && y[..k - 1] == b[..k][1..];
          assert FirstDiffer(x, y, k - 1);
        }
      } else if a[0] < b[0] {
        assert FirstDiffer(a, b, 0);
      }
    }
  }

  lemma {:induction false} BeforeTrichotomy(a: string, b: string)
    ensures a == b || Before(a, b) || Before(b, a)
  {
    if a != "" && b != "" && a[0] == b[0] {
      BeforeTrichotomy(a[1..], b[1..]);
      if a[1..] == b[1..] {
        assert a == [a[0]] + a[1..] == [b[0]] + b[1..] == b;
      }
    }
  }

  lemma {:induction false} BeforeAsymmetric(a: string, b: string)
    requires Before(a, b)
    ensures !Before(b, a) && a != b
  {
    if a != "" && a[0] == b[0] {
      BeforeAsymmetric(a[1..], b[1..]);
    }
  }

  lemma {:induction false} BeforeTransitive(a: string, b: string, c: string)
    requires Before(a, b) && Before(b, c)
    ensures Before(a, c)
  {
    if a != "" && a[0] == b[0] == c[0] {
      BeforeTransitive(a[1..], b[1..], c[1..]);
    }
  }
}

/** The provider-neutral entities the scheduler and the workers exchange. */
module Domain {

  datatype Option<+T> = None | Some(value: T) {
    function GetOr(default: T): T {
      if Some? then value else default
    }
  }

  /** What a call into a dependency returns. */
  datatype Answer<+T> = Ok(value: T) | Err(message: string)

  datatype Blocker = Blocker(state: string)

  datatype WorkItem = WorkItem(
    id: string, identifier: string, title: string, state: string,
    priority: Option<int>, blockedBy: seq<Blocker>, routable: Option<bool>, createdAt: Option<int>)

  datatype Totals = Totals(input: int, output: int, total: int, seconds: int)

  const NO_TOTALS := Totals(0, 0, 0, 0)

  datatype RateLimits = RateLimits(limitId: string)

  datatype EventKind =
    | WorkspaceCreated | WorkspacePathDiscovered | RunnerHostSelected | CodexEventReceived
    | TurnCompleted | RunCompleted | RunFailed | RetryScheduled

  /** `at` is None for Go's zero time. */
  datatype RunEvent = RunEvent(
    kind: EventKind, itemId: string, at: Option<int>, workerHost: string, workspacePath: string,
    sessionId: string, message: string, error: Option<string>, totals: Totals, rateLimits: Option<RateLimits>)
  {
    predicate Terminal() {
      kind.RunCompleted? || kind.RunFailed?
    }
  }

  /** A sequence that lists a set, each member once: one order in which Go may walk a map. */
  ghost predicate Lists<T(!new)>(order: seq<T>, members: set<T>) {
    && (forall i, j :: 0 <= i < j < |order| ==> order[i] != order[j])
    && (forall x :: x in order <==> x in members)
  }

  /** A walk is as long as what it walks. */
  lemma {:induction false} WalkLength<T(!new)>(order: seq<T>, members: set<T>)
    requires Lists(order, members)
    ensures |order| == |members|
    decreases |order|
  {
    if order == [] {
      assert members == {};
    } else {
      assert order[0] in order;
      assert order == [order[0]] + order[1..];
      assert Lists(order[1..], members - {order[0]});
      WalkLength(order[1..], members - {order[0]});
    }
  }
}
