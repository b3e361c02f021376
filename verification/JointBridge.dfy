/** The joint-state bridges dsr_mujoco_bridge.py (lines 30-72) and gazebo_connection.py (lines 32-66):
    joints sorted by number, joint 4 dropped for the p3020, commands published only on change. */
module JointBridge {
  import opened Wrappers

  /** A JointState message. Positions are NaN-free; an effort of None is NaN. */
  datatype Message = Message(name: seq<string>, position: seq<real>, velocity: seq<real>, effort: seq<Option<real>>)

  /** The sort key: the number in the joint name, or float('inf'). */
  datatype Key = Num(n: nat) | Inf

  predicate KeyLe(a: Key, b: Key) {
    b.Inf? || (a.Num? && a.n <= b.n)
  }

  /* ---- Joint numbers ---- */

  predicate IsDigit(c: char) {
    '0' <= c <= '9'
  }

  /** int() of the longest run of digits at the front of s. */
  function LeadingNumber(s: string, acc: nat): nat {
    if s == "" || !IsDigit(s[0]) then acc
    else LeadingNumber(s[1..], 10 * acc + (s[0] as int - '0' as int))
  }

  predicate StartsWith(s: string, prefix: string) {
    prefix <= s
  }

  /** re.search(r'(\d+)', name), lines 44-46 of the Gazebo bridge. */
  function FirstNumber(s: string): Key {
    if s == "" then Inf
    else if IsDigit(s[0]) then Num(LeadingNumber(s, 0))
    else FirstNumber(s[1..])
  }

  /** re.search(r'joint_(\d+)', name), lines 50-52 of the MuJoCo bridge. */
  function JointNumber(s: string): Key {
    if s == "" then Inf
    else if StartsWith(s, "joint_") && |s| > 6 && IsDigit(s[6]) then Num(LeadingNumber(s[6..], 0))
    else JointNumber(s[1..])
  }

  /** "joint_4" in name: joint_40 counts too. */
  predicate MentionsJoint4(s: string) {
    s != "" && (StartsWith(s, "joint_4") || MentionsJoint4(s[1..]))
  }

  /** The Gazebo bridge reads the first run of digits in the name, whatever stands around it; without a digit the
      joint comes last. */
  lemma {:induction false} FirstNumberExactly(s: string, i: nat)
    requires i <= |s| && (forall j :: 0 <= j < i ==> !IsDigit(s[j])) && (i < |s| ==> IsDigit(s[i]))
    ensures FirstNumber(s) == if i == |s| then Inf else Num(LeadingNumber(s[i..], 0))
  {
    if i == 0 {
      assert s[0..] == s;
    } else {
      FirstNumberExactly(s[1..], i - 1);
      assert s[1..][i - 1..] == s[i..];
    }
  }

  /** "joint_" and a digit stand in the name at position i. */
  predicate JointAt(s: string, i: nat) {
    i + 6 < |s| && s[i..i + 6] == "joint_" && IsDigit(s[i + 6])
  }

  /** The MuJoCo bridge reads the digits after the first "joint_" that has some; without it the joint comes last. */
  lemma {:induction false} JointNumberExactly(s: string, i: nat)
    requires i <= |s| && (forall j: nat :: j < i ==> !JointAt(s, j)) && (i < |s| ==> JointAt(s, i))
    ensures JointNumber(s) == if i == |s| then Inf else Num(LeadingNumber(s[i + 6..], 0))
  {
    if i == 0 {
      assert s != "" ==> s[0..6] == s[..6];
    } else {
      assert !JointAt(s, 0);
      forall j: nat | j < i - 1 ensures !JointAt(s[1..], j) {
        assert !JointAt(s, j + 1);
        assert j + 7 < |s| ==> s[1..][j..j + 6] == s[j + 1..j + 7];
      }
      if i < |s| {
        assert s[1..][i - 1..i + 5] == s[i..i + 6];
        assert s[1..][i + 5..] == s[i + 6..];
      }
      JointNumberExactly(s[1..], i - 1);
    }
  }

  /** The number is that of the run of digits alone. */
  lemma {:induction false} NumberEndsWithRun(d: string, rest: string, acc: nat)
    requires (forall j :: 0 <= j < |d| ==> IsDigit(d[j])) && (rest != "" ==> !IsDigit(rest[0]))
    ensures LeadingNumber(d + rest, acc) == LeadingNumber(d, acc)
  {
    if d == "" {
      assert d + rest == rest;
    } else {
      assert (d + rest)[1..] == d[1..] + rest;
      NumberEndsWithRun(d[1..], rest, 10 * acc + (d[0] as int - '0' as int));
    }
  }

  /* ---- sorted(range(n), key=...) ---- */

  /** Python's order on indexes: by key, ties in index order (the sort is stable). */
  predicate Before(keys: seq<Key>, a: nat, b: nat)
    requires a < |keys| && b < |keys|
  {
    KeyLe(keys[a], keys[b]) && (keys[a] == keys[b] ==> a < b)
  }

  predicate Indexes(ix: seq<nat>, n: nat) {
    forall i :: 0 <= i < |ix| ==> ix[i] < n
  }

  predicate InOrder(keys: seq<Key>, ix: seq<nat>) {
    Indexes(ix, |keys|) && forall i, j :: 0 <= i < j < |ix| ==> Before(keys, ix[i], ix[j])
  }

  /** ix lists every index from `from` on exactly once, in order. */
  ghost predicate SortedFrom(keys: seq<Key>, from: nat, ix: seq<nat>) {
    InOrder(keys, ix) && forall k: nat :: k in ix <==> from <= k < |keys|
  }

  function Insert(keys: seq<Key>, a: nat, ix: seq<nat>): (out: seq<nat>)
    requires a < |keys| && Indexes(ix, |keys|)
    ensures Indexes(out, |keys|) && |out| == |ix| + 1
  {
    if ix == [] then [a]
    else if KeyLe(keys[a], keys[ix[0]]) then [a] + ix
    else [ix[0]] + Insert(keys, a, ix[1..])
  }

  function SortFrom(keys: seq<Key>, from: nat): (ix: seq<nat>)
    ensures Indexes(ix, |keys|) && (from <= |keys| ==> |ix| == |keys| - from)
    decreases |keys| - from
  {
    if from >= |keys| then [] else Insert(keys, from, SortFrom(keys, from + 1))
  }

  lemma {:induction false} InsertMembers(keys: seq<Key>, a: nat, ix: seq<nat>, k: nat)
    requires a < |keys| && Indexes(ix, |keys|)
    ensures k in Insert(keys, a, ix) <==> k == a || k in ix
  {
    if ix != [] && !KeyLe(keys[a], keys[ix[0]]) {
      InsertMembers(keys, a, ix[1..], k);
      assert ix == [ix[0]] + ix[1..];
    }
  }

  /** One more index in front of a list in order. */
  lemma InOrderCons(keys: seq<Key>, a: nat, ix: seq<nat>)
    requires a < |keys| && InOrder(keys, ix) && forall k :: k in ix ==> k < |keys| && Before(keys, a, k)
    ensures InOrder(keys, [a] + ix)
  {
    forall j | 0 <= j < |ix| ensures Before(keys, a, ix[j]) {
      assert ix[j] in ix;
    }
  }

  lemma InOrderTail(keys: seq<Key>, ix: seq<nat>, k: nat)
    requires InOrder(keys, ix) && ix != [] && k in ix[1..]
    ensures InOrder(keys, ix[1..]) && k in ix && Before(keys, ix[0], k)
  {
    var m :| 0 <= m < |ix[1..]| && ix[1..][m] == k;
    assert ix[m + 1] == k;
  }

  lemma {:induction false} InsertInOrder(keys: seq<Key>, a: nat, ix: seq<nat>)
    requires a < |keys| && InOrder(keys, ix) && forall k :: k in ix ==> a < k
    ensures InOrder(keys, Insert(keys, a, ix))
    ensures forall k: nat :: k in Insert(keys, a, ix) <==> k == a || k in ix
  {
    forall k: nat ensures k in Insert(keys, a, ix) <==> k == a || k in ix {
      InsertMembers(keys, a, ix, k);
    }
    if ix == [] {
    } else if KeyLe(keys[a], keys[ix[0]]) {
      forall k | k in ix ensures k < |keys| && Before(keys, a, k) {
        if k in ix[1..] { InOrderTail(keys, ix, k); }
      }
      InOrderCons(keys, a, ix);
    } else {
      var rest := Insert(keys, a, ix[1..]);
      assert InOrder(keys, ix[1..]) && forall k :: k in ix[1..] ==> k in ix;
      InsertInOrder(keys, a, ix[1..]);
      forall k | k in rest ensures k < |keys| && Before(keys, ix[0], k) {
        if k != a { InOrderTail(keys, ix, k); }
      }
      InOrderCons(keys, ix[0], rest);
    }
  }

  lemma {:induction false} SortSorts(keys: seq<Key>, from: nat)
    requires from <= |keys|
    ensures SortedFrom(keys, from, SortFrom(keys, from))
    decreases |keys| - from
  {
    if from < |keys| {
      SortSorts(keys, from + 1);
      InsertInOrder(keys, from, SortFrom(keys, from + 1));
    }
  }

  /** There is only one way to list the same indexes in order. */
  lemma {:induction false} OrderIsUnique(keys: seq<Key>, a: seq<nat>, b: seq<nat>)
    requires InOrder(keys, a) && InOrder(keys, b) && forall k: nat :: k in a <==> k in b
    ensures a == b
  {
    if a == [] {
      if b != [] { HeadIn(b); }
    } else {
      assert a[0] in a && a[0] in b;
      assert b[0] in b && b[0] in a;
      var i :| 0 <= i < |b| && b[i] == a[0];
      var j :| 0 <= j < |a| && a[j] == b[0];
      assert a[0] == b[0];
      forall k: nat ensures k in a[1..] <==> k in b[1..] {
        SameTail(keys, a, b, k);
        SameTail(keys, b, a, k);
      }
      OrderIsUnique(keys, a[1..], b[1..]);
      assert a == [a[0]] + a[1..] && b == [b[0]] + b[1..];
    }
  }

  lemma HeadIn(b: seq<nat>)
    requires b != []
    ensures b[0] in b
  {
  }

  lemma SameTail(keys: seq<Key>, a: seq<nat>, b: seq<nat>, k: nat)
    requires InOrder(keys, a) && |a| > 0 && |b| > 0 && a[0] == b[0] && forall m: nat :: m in a ==> m in b
    ensures k in a[1..] ==> k in b[1..]
  {
    if k in a[1..] {
      var i :| 0 <= i < |a[1..]| && a[1..][i] == k;
      assert Before(keys, a[0], a[i + 1]);
      assert k in a && k != b[0];
    }
  }

  /* ---- One message ---- */

  function KeysOf(names: seq<string>, keyOf: string -> Key): (keys: seq<Key>)
    ensures |keys| == |names| && forall i :: 0 <= i < |names| ==> keys[i] == keyOf(names[i])
  {
    seq(|names|, i requires 0 <= i < |names| => keyOf(names[i]))
  }

  /** Every array is as long as the list of names; otherwise the comprehensions raise IndexError. */
  predicate Complete(msg: Message) {
    |msg.position| >= |msg.name| && |msg.velocity| >= |msg.name| && |msg.effort| >= |msg.name|
  }

  function SortedIndexes(msg: Message, keyOf: string -> Key): (ix: seq<nat>)
    ensures Indexes(ix, |msg.name|)
  {
    SortFrom(KeysOf(msg.name, keyOf), 0)
  }

  function At<T>(xs: seq<T>, ix: seq<nat>): (ys: seq<T>)
    requires Indexes(ix, |xs|)
    ensures |ys| == |ix| && forall i :: 0 <= i < |ix| ==> ys[i] == xs[ix[i]]
  {
    seq(|ix|, i requires 0 <= i < |ix| => xs[ix[i]])
  }

  /** next((i for i in ix if "joint_4" in name[i]), None) */
  function FirstJoint4(names: seq<string>, ix: seq<nat>): (r: Option<nat>)
    requires Indexes(ix, |names|)
    ensures r.Some? ==> r.value in ix
  {
    if ix == [] then None
    else if MentionsJoint4(names[ix[0]]) then Some(ix[0])
    else FirstJoint4(names, ix[1..])
  }

  /** [i for i in ix if i != drop] */
  function Without(ix: seq<nat>, drop: Option<nat>): (out: seq<nat>)
    ensures forall k :: k in out ==> k in ix
  {
    if ix == [] then []
    else (if Some(ix[0]) == drop then [] else [ix[0]]) + Without(ix[1..], drop)
  }

  lemma WithoutIndexes(ix: seq<nat>, drop: Option<nat>, n: nat)
    requires Indexes(ix, n)
    ensures Indexes(Without(ix, drop), n)
  {
    var out := Without(ix, drop);
    forall i | 0 <= i < |out| ensures out[i] < n {
      assert out[i] in out;
    }
  }

  lemma {:induction false} WithoutNothing(ix: seq<nat>)
    ensures Without(ix, None) == ix
  {
    if ix != [] { WithoutNothing(ix[1..]); }
  }

  const P3020 := "p3020"

  /** The indexes a command is made of. */
  function CommandIndexes(model: string, names: seq<string>, ix: seq<nat>): (out: seq<nat>)
    requires Indexes(ix, |names|)
    ensures Indexes(out, |names|)
  {
    if model == P3020 then
      WithoutIndexes(ix, FirstJoint4(names, ix), |names|);
      Without(ix, FirstJoint4(names, ix))
    else ix
  }

  /** The position vector that a complete message asks for. */
  function Command(model: string, msg: Message, keyOf: string -> Key): seq<real>
    requires Complete(msg)
  {
    At(msg.position[..|msg.name|], CommandIndexes(model, msg.name, SortedIndexes(msg, keyOf)))
  }

  /* ---- What a command holds ---- */

  /** The text occurs in s at position i. */
  predicate OccursAt(s: string, text: string, i: nat) {
    i + |text| <= |s| && s[i..i + |text|] == text
  }

  ghost predicate Contains(s: string, text: string) {
    exists i: nat :: OccursAt(s, text, i)
  }

  lemma PrefixOccurs(s: string, text: string)
    ensures OccursAt(s, text, 0) <==> StartsWith(s, text)
  {
    if |text| <= |s| { assert s[0..0 + |text|] == s[..|text|]; }
  }

  lemma OccursInTail(s: string, text: string, i: nat)
    requires s != ""
    ensures OccursAt(s[1..], text, i) <==> OccursAt(s, text, i + 1)
  {
    if i + 1 + |text| <= |s| { assert s[1..][i..i + |text|] == s[i + 1..i + 1 + |text|]; }
  }

  lemma {:induction false} MentionIsContained(s: string)
    ensures MentionsJoint4(s) <==> Contains(s, "joint_4")
  {
    if s != "" {
      MentionIsContained(s[1..]);
      if StartsWith(s, "joint_4") {
        PrefixOccurs(s, "joint_4");
      } else if Contains(s[1..], "joint_4") {
        var i: nat :| OccursAt(s[1..], "joint_4", i);
        OccursInTail(s, "joint_4", i);
      }
      if Contains(s, "joint_4") {
        var i: nat :| OccursAt(s, "joint_4", i);
        if i == 0 {
          PrefixOccurs(s, "joint_4");
        } else {
          OccursInTail(s, "joint_4", i - 1);
        }
      }
    }
  }

  lemma {:induction false} WithoutOnly(keys: seq<Key>, ix: seq<nat>, drop: Option<nat>)
    requires InOrder(keys, ix)
    ensures InOrder(keys, Without(ix, drop))
    ensures forall k: nat :: k in Without(ix, drop) <==> k in ix && Some(k) != drop
  {
    if ix != [] {
      assert InOrder(keys, ix[1..]) && ix == [ix[0]] + ix[1..];
      WithoutOnly(keys, ix[1..], drop);
      var rest := Without(ix[1..], drop);
      forall k | k in rest ensures k < |keys| && Before(keys, ix[0], k) {
        InOrderTail(keys, ix, k);
      }
      InOrderCons(keys, ix[0], rest);
      assert [] + rest == rest;
    }
  }

  /** The first index in order whose name mentions joint_4 comes before all others that do. */
  lemma {:induction false} FirstJoint4IsLowest(names: seq<string>, keys: seq<Key>, ix: seq<nat>, k: nat)
    requires |keys| == |names| && InOrder(keys, ix) && k in ix && MentionsJoint4(names[k])
    ensures var d := FirstJoint4(names, ix);
            && d.Some? && d.value < |names| && MentionsJoint4(names[d.value])
            && (k == d.value || Before(keys, d.value, k))
  {
    if k != ix[0] {
      assert k in ix[1..] by { assert ix == [ix[0]] + ix[1..]; }
      InOrderTail(keys, ix, k);
      if !MentionsJoint4(names[ix[0]]) {
        FirstJoint4IsLowest(names, keys, ix[1..], k);
      }
    }
  }

  lemma {:induction false} NoJoint4(names: seq<string>, ix: seq<nat>)
    requires Indexes(ix, |names|) && FirstJoint4(names, ix) == None
    ensures forall k :: k in ix ==> !MentionsJoint4(names[k])
  {
    if ix != [] {
      NoJoint4(names, ix[1..]);
      assert ix == [ix[0]] + ix[1..];
    }
  }

  /** The joint that the p3020 leaves out: the lowest-numbered one (the first listed, of equals) whose name contains
      "joint_4", if there is one. */
  ghost predicate LeftOut(names: seq<string>, keys: seq<Key>, d: Option<nat>)
    requires |keys| == |names|
  {
    && (d.Some? ==> d.value < |names| && Contains(names[d.value], "joint_4"))
    && forall k :: 0 <= k < |names| && Contains(names[k], "joint_4") ==>
         d.Some? && (k == d.value || Before(keys, d.value, k))
  }

  lemma FirstJoint4LeftOut(names: seq<string>, keys: seq<Key>, ix: seq<nat>)
    requires |keys| == |names| && SortedFrom(keys, 0, ix)
    ensures LeftOut(names, keys, FirstJoint4(names, ix))
  {
    var d := FirstJoint4(names, ix);
    forall k | 0 <= k < |names| && Contains(names[k], "joint_4")
      ensures d.Some? && (k == d.value || Before(keys, d.value, k))
    {
      MentionIsContained(names[k]);
      FirstJoint4IsLowest(names, keys, ix, k);
    }
    if d.Some? {
      FirstJoint4Mentions(names, ix);
      MentionIsContained(names[d.value]);
    }
  }

  lemma {:induction false} FirstJoint4Mentions(names: seq<string>, ix: seq<nat>)
    requires Indexes(ix, |names|) && FirstJoint4(names, ix).Some?
    ensures FirstJoint4(names, ix).value < |names| && MentionsJoint4(names[FirstJoint4(names, ix).value])
  {
    if !MentionsJoint4(names[ix[0]]) {
      FirstJoint4Mentions(names, ix[1..]);
    }
  }

  /** The command of a complete message is the positions of its joints in the order of their numbers, ties in
      the order of the message, each joint exactly once, but for the one that the p3020 leaves out. */
  lemma CommandListsJoints(model: string, msg: Message, keyOf: string -> Key)
    returns (ix: seq<nat>, left: Option<nat>)
    requires Complete(msg)
    ensures var keys, c := KeysOf(msg.name, keyOf), Command(model, msg, keyOf);
            && InOrder(keys, ix)
            && (if model == "p3020" then LeftOut(msg.name, keys, left) else left == None)
            && (forall k: nat :: k in ix <==> k < |msg.name| && left != Some(k))
            && |c| == |ix| && forall k :: 0 <= k < |ix| ==> c[k] == msg.position[ix[k]]
  {
    var keys, sorted := KeysOf(msg.name, keyOf), SortedIndexes(msg, keyOf);
    SortSorts(keys, 0);
    left := None;
    if model == P3020 {
      left := FirstJoint4(msg.name, sorted);
      FirstJoint4LeftOut(msg.name, keys, sorted);
      WithoutOnly(keys, sorted, left);
    }
    ix := CommandIndexes(model, msg.name, sorted);
  }

  /* ---- The published stream ---- */

  /** xs with every element equal to the one before it removed. */
  function Changes(xs: seq<seq<real>>): (out: seq<seq<real>>)
    ensures xs != [] ==> out != [] && out[0] == xs[0] && out[|out| - 1] == xs[|xs| - 1]
  {
    if |xs| <= 1 then xs
    else
      var before := Changes(xs[..|xs| - 1]);
      if xs[|xs| - 1] == xs[|xs| - 2] then before else before + [xs[|xs| - 1]]
  }

  /** Commands of the complete messages, in order; an incomplete one raises and is dropped. */
  function Commands(model: string, msgs: seq<Message>, keyOf: string -> Key): seq<seq<real>> {
    if msgs == [] then []
    else
      var before := Commands(model, msgs[..|msgs| - 1], keyOf);
      var msg := msgs[|msgs| - 1];
      if Complete(msg) then before + [Command(model, msg, keyOf)] else before
  }

  datatype MuJoCo = MuJoCo(previous: seq<real>, first: bool, published: seq<seq<real>>)

  const MUJOCO_START := MuJoCo([], true, [])

  function MuJoCoEmit(s: MuJoCo, positions: seq<real>): MuJoCo {
    if s.first || positions != s.previous then MuJoCo(positions, false, s.published + [positions]) else s
  }

  function MuJoCoStep(model: string, s: MuJoCo, msg: Message): MuJoCo {
    if Complete(msg) then MuJoCoEmit(s, Command(model, msg, JointNumber)) else s
  }

  function MuJoCoRun(model: string, msgs: seq<Message>): MuJoCo {
    if msgs == [] then MUJOCO_START
    else MuJoCoStep(model, MuJoCoRun(model, msgs[..|msgs| - 1]), msgs[|msgs| - 1])
  }

  /** What the node remembers of its commands, and the command stream. */
  datatype Stream = Stream(previous: seq<real>, published: seq<seq<real>>)

  /** The command stream, and the re-published, sorted messages. */
  datatype Gazebo = Gazebo(out: Stream, joints: seq<Message>)

  const GAZEBO_START := Gazebo(Stream([], []), [])

  /** The message of lines 50-55: sorted, with NaN efforts replaced by 0.0. */
  function SortedMessage(msg: Message): Message
    requires Complete(msg)
  {
    var ix, n := SortedIndexes(msg, FirstNumber), |msg.name|;
    var effort := At(msg.effort[..n], ix);
    Message(At(msg.name, ix), At(msg.position[..n], ix), At(msg.velocity[..n], ix),
            seq(|effort|, i requires 0 <= i < |effort| => if effort[i] == None then Some(0.0) else effort[i]))
  }

  /** Line 38. Its first test, `data == []`, compares the message's array field with a list, which is never
      true; so an empty previous command does not count as "nothing sent yet". */
  function GazeboEmit(s: Stream, data: seq<real>): Stream {
    if s.previous != data then Stream(data, s.published + [data]) else s
  }

  function GazeboStep(model: string, s: Gazebo, msg: Message): Gazebo {
    if Complete(msg) then
      Gazebo(GazeboEmit(s.out, Command(model, msg, FirstNumber)), s.joints + [SortedMessage(msg)])
    else s
  }

  function GazeboRun(model: string, msgs: seq<Message>): Gazebo {
    if msgs == [] then GAZEBO_START
    else GazeboStep(model, GazeboRun(model, msgs[..|msgs| - 1]), msgs[|msgs| - 1])
  }

  predicate OpensEmpty(cmds: seq<seq<real>>) {
    |cmds| > 0 && |cmds[0]| == 0
  }

  ghost predicate AllEmpty(cmds: seq<seq<real>>) {
    forall i :: 0 <= i < |cmds| ==> |cmds[i]| == 0
  }

  /** The MuJoCo bridge after the commands cmds. */
  ghost predicate MuJoCoAfter(s: MuJoCo, cmds: seq<seq<real>>) {
    && s.published == Changes(cmds)
    && (s.first <==> cmds == [])
    && (cmds != [] ==> s.previous == cmds[|cmds| - 1] == s.published[|s.published| - 1])
  }

  /** The stream that the bridge has published after these commands. */
  ghost function Owed(cmds: seq<seq<real>>): seq<seq<real>> {
    if OpensEmpty(cmds) then Changes(cmds)[1..] else Changes(cmds)
  }

  /** The Gazebo bridge after the commands cmds. */
  ghost predicate GazeboAfter(s: Stream, cmds: seq<seq<real>>) {
    && s.published == Owed(cmds)
    && s.previous == (if |cmds| == 0 then [] else cmds[|cmds| - 1])
    && (s.published == [] <==> AllEmpty(cmds))
  }

  lemma ChangesStep(cmds: seq<seq<real>>, c: seq<real>)
    ensures Changes(cmds + [c]) ==
            if cmds != [] && cmds[|cmds| - 1] == c then Changes(cmds) else Changes(cmds) + [c]
  {
    assert (cmds + [c])[..|cmds|] == cmds;
  }

  lemma MuJoCoEmits(s: MuJoCo, cmds: seq<seq<real>>, c: seq<real>)
    requires MuJoCoAfter(s, cmds)
    ensures MuJoCoAfter(MuJoCoEmit(s, c), cmds + [c])
  {
    ChangesStep(cmds, c);
  }

  lemma AllEmptyStep(cmds: seq<seq<real>>, c: seq<real>)
    ensures AllEmpty(cmds + [c]) <==> AllEmpty(cmds) && |c| == 0
  {
    var all := cmds + [c];
    assert all[|cmds|] == c && forall i :: 0 <= i < |cmds| ==> all[i] == cmds[i];
  }

  lemma OwedStep(cmds: seq<seq<real>>, c: seq<real>)
    ensures Owed(cmds + [c]) == if (if |cmds| == 0 then [] else cmds[|cmds| - 1]) == c then Owed(cmds)
                                else Owed(cmds) + [c]
  {
    var changes := Changes(cmds);
    ChangesStep(cmds, c);
    if |cmds| == 0 {
      assert cmds + [c] == [c];
      assert |c| == 0 ==> c == [];
    } else {
      assert (cmds + [c])[0] == cmds[0];
      assert (changes + [c])[1..] == changes[1..] + [c];
    }
  }

  lemma GazeboEmits(s: Stream, cmds: seq<seq<real>>, c: seq<real>)
    requires GazeboAfter(s, cmds)
    ensures GazeboAfter(GazeboEmit(s, c), cmds + [c])
  {
    OwedStep(cmds, c);
    AllEmptyStep(cmds, c);
    if AllEmpty(cmds) { assert |s.previous| == 0; }
  }

  /** For every message stream, what the MuJoCo bridge has published is the stream of commands with
      consecutive duplicates removed, and the last published command is the current one. */
  lemma {:induction false} MuJoCoPublishesChanges(model: string, msgs: seq<Message>)
    ensures MuJoCoAfter(MuJoCoRun(model, msgs), Commands(model, msgs, JointNumber))
  {
    if msgs != [] {
      var before, msg := msgs[..|msgs| - 1], msgs[|msgs| - 1];
      MuJoCoPublishesChanges(model, before);
      if Complete(msg) {
        MuJoCoEmits(MuJoCoRun(model, before), Commands(model, before, JointNumber), Command(model, msg, JointNumber));
      }
    }
  }

  lemma {:induction false} GazeboRunAfter(model: string, msgs: seq<Message>)
    ensures GazeboAfter(GazeboRun(model, msgs).out, Commands(model, msgs, FirstNumber))
  {
    if msgs != [] {
      var before, msg := msgs[..|msgs| - 1], msgs[|msgs| - 1];
      GazeboRunAfter(model, before);
      if Complete(msg) {
        GazeboEmits(
          GazeboRun(model, before).out, Commands(model, before, FirstNumber), Command(model, msg, FirstNumber));
      }
    }
  }

  /** What the Gazebo bridge has published is the stream of commands with consecutive duplicates removed if and
      only if the first command is not empty; otherwise the first of those is missing. The last published
      command is the current one if and only if some command was not empty. */
  lemma GazeboPublishesChanges(model: string, msgs: seq<Message>)
    ensures var out, cmds := GazeboRun(model, msgs).out.published, Commands(model, msgs, FirstNumber);
            && (out == Changes(cmds) <==> !OpensEmpty(cmds))
            && (OpensEmpty(cmds) ==> [cmds[0]] + out == Changes(cmds))
            && (cmds != [] ==>
                  (out != [] && out[|out| - 1] == cmds[|cmds| - 1] <==> exists i :: 0 <= i < |cmds| && |cmds[i]| > 0))
  {
    var out, cmds := GazeboRun(model, msgs).out, Commands(model, msgs, FirstNumber);
    GazeboRunAfter(model, msgs);
    if OpensEmpty(cmds) {
      WithoutFirst(Changes(cmds));
      assert Changes(cmds)[0] == cmds[0];
    }
    if cmds != [] { LastPublished(out, cmds); }
  }

  lemma WithoutFirst(xs: seq<seq<real>>)
    requires xs != []
    ensures xs[1..] != xs && [xs[0]] + xs[1..] == xs
  {
    assert |xs[1..]| < |xs|;
  }

  lemma LastPublished(s: Stream, cmds: seq<seq<real>>)
    requires GazeboAfter(s, cmds) && cmds != []
    ensures s.published != [] ==> s.published[|s.published| - 1] == cmds[|cmds| - 1]
    ensures s.published != [] <==> exists i :: 0 <= i < |cmds| && |cmds[i]| > 0
  {
    var all := Changes(cmds);
    assert s.published != [] && OpensEmpty(cmds) ==> all[1..][|all| - 2] == all[|all| - 1];
  }

  /** The messages that are long enough, in order. */
  function CompleteOnes(msgs: seq<Message>): (out: seq<Message>)
    ensures forall i :: 0 <= i < |out| ==> Complete(out[i])
  {
    if msgs == [] then []
    else CompleteOnes(msgs[..|msgs| - 1]) + if Complete(msgs[|msgs| - 1]) then [msgs[|msgs| - 1]] else []
  }

  /** For every message stream both bridges act on exactly the complete messages, in order: one command each, and
      the Gazebo bridge re-publishes each of them, sorted. */
  lemma {:induction false} ActsOnCompleteMessages(model: string, msgs: seq<Message>, keyOf: string -> Key)
    ensures var done, cmds, joints := CompleteOnes(msgs), Commands(model, msgs, keyOf), GazeboRun(model, msgs).joints;
            && |cmds| == |joints| == |done|
            && forall i :: 0 <= i < |done| ==>
                 cmds[i] == Command(model, done[i], keyOf) && joints[i] == SortedMessage(done[i])
  {
    if msgs != [] {
      ActsOnCompleteMessages(model, msgs[..|msgs| - 1], keyOf);
    }
  }

  /** A command is empty exactly when there is no joint, or only the one that the p3020 drops. */
  lemma EmptyCommandExactly(model: string, msg: Message, keyOf: string -> Key)
    requires Complete(msg)
    ensures |Command(model, msg, keyOf)| == 0 <==>
            |msg.name| == 0 || (model == P3020 && |msg.name| == 1 && MentionsJoint4(msg.name[0]))
  {
    var keys, ix := KeysOf(msg.name, keyOf), SortedIndexes(msg, keyOf);
    SortSorts(keys, 0);
    if |ix| == 1 {
      assert ix[0] == 0 && ix[1..] == [];
      assert Without(ix[1..], FirstJoint4(msg.name, ix)) == [];
    } else if |ix| > 1 {
      assert Before(keys, ix[0], ix[1]);
      assert ix[1..][0] == ix[1];
      assert |Without(ix[1..], FirstJoint4(msg.name, ix))| > 0 || FirstJoint4(msg.name, ix) == Some(ix[1]);
    }
  }

  /* ---- Order of the joints in a message ---- */

  /** p lists 0 .. n-1 in some order. */
  ghost predicate Permutation(p: seq<nat>, n: nat) {
    && |p| == n && Indexes(p, n)
    && (forall i, j :: 0 <= i < j < n ==> p[i] != p[j])
    && (forall k: nat :: k < n ==> k in p)
  }

  ghost predicate DistinctNumbers(msg: Message, keyOf: string -> Key) {
    forall i, j :: 0 <= i < j < |msg.name| ==> keyOf(msg.name[i]) != keyOf(msg.name[j])
  }

  /** `other` is `msg` with its joints listed in the order p. */
  ghost predicate Shuffled(msg: Message, other: Message, p: seq<nat>)
  {
    && Complete(msg) && Complete(other) && Permutation(p, |msg.name|)
    && |other.name| == |msg.name|
    && forall i :: 0 <= i < |p| ==> other.name[i] == msg.name[p[i]] && other.position[i] == msg.position[p[i]]
  }

  /** The sorted order of the shuffled message, carried back through p, is the sorted order of the message. */
  lemma SortedOrderCarriesBack(msg: Message, other: Message, p: seq<nat>, keyOf: string -> Key)
    requires Shuffled(msg, other, p) && DistinctNumbers(msg, keyOf)
    ensures SortedIndexes(msg, keyOf) == At(p, SortedIndexes(other, keyOf))
  {
    var keys, keys' := KeysOf(msg.name, keyOf), KeysOf(other.name, keyOf);
    var ix, ix' := SortedIndexes(msg, keyOf), SortedIndexes(other, keyOf);
    SortSorts(keys, 0);
    SortSorts(keys', 0);
    var back := At(p, ix');
    forall i, j | 0 <= i < j < |back| ensures Before(keys, back[i], back[j]) {
      assert Before(keys', ix'[i], ix'[j]);
      assert keys[back[i]] == keys'[ix'[i]] && keys[back[j]] == keys'[ix'[j]];
    }
    forall k: nat ensures k in ix <==> k in back {
      if k < |keys| {
        assert k in p;
        var i :| 0 <= i < |p| && p[i] == k;
        assert i in ix';
        var m :| 0 <= m < |ix'| && ix'[m] == i;
        assert back[m] == k;
      }
    }
    OrderIsUnique(keys, ix, back);
  }

  /** Dropping joint 4 commutes with renaming the indexes. */
  lemma {:induction false} CommandCarriesBack(
    msg: Message, other: Message, p: seq<nat>, ix: seq<nat>)
    requires Shuffled(msg, other, p) && Indexes(ix, |msg.name|)
    ensures FirstJoint4(msg.name, At(p, ix)).Some? == FirstJoint4(other.name, ix).Some?
    ensures FirstJoint4(other.name, ix).Some? ==>
              FirstJoint4(other.name, ix).value < |p|
              && FirstJoint4(msg.name, At(p, ix)).value == p[FirstJoint4(other.name, ix).value]
  {
    if ix != [] {
      assert At(p, ix)[1..] == At(p, ix[1..]);
      CommandCarriesBack(msg, other, p, ix[1..]);
    }
  }

  lemma {:induction false} WithoutCarriesBack(p: seq<nat>, n: nat, ix: seq<nat>, drop: Option<nat>)
    requires Permutation(p, n) && Indexes(ix, n) && (drop.Some? ==> drop.value < n)
    ensures Indexes(Without(ix, drop), n)
    ensures Without(At(p, ix), if drop.Some? then Some(p[drop.value]) else None) == At(p, Without(ix, drop))
  {
    WithoutIndexes(ix, drop, n);
    if ix != [] {
      assert At(p, ix)[1..] == At(p, ix[1..]);
      WithoutCarriesBack(p, n, ix[1..], drop);
    }
  }

  /** Listing the joints of a message in another order does not change its command. */
  lemma CommandIgnoresOrder(model: string, msg: Message, other: Message, p: seq<nat>, keyOf: string -> Key)
    requires Shuffled(msg, other, p) && DistinctNumbers(msg, keyOf)
    ensures Command(model, msg, keyOf) == Command(model, other, keyOf)
  {
    var ix, ix' := SortedIndexes(msg, keyOf), SortedIndexes(other, keyOf);
    SortedOrderCarriesBack(msg, other, p, keyOf);
    CommandCarriesBack(msg, other, p, ix');
    WithoutCarriesBack(p, |p|, ix', FirstJoint4(other.name, ix'));
    assert CommandIndexes(model, msg.name, ix) == At(p, CommandIndexes(model, other.name, ix'));
  }

  ghost predicate AllShuffled(msgs: seq<Message>, others: seq<Message>, ps: seq<seq<nat>>) {
    && |msgs| == |others| == |ps|
    && forall i :: 0 <= i < |msgs| ==> Shuffled(msgs[i], others[i], ps[i])
  }

  lemma {:induction false} CommandsIgnoreOrder(
    model: string, msgs: seq<Message>, others: seq<Message>, ps: seq<seq<nat>>, keyOf: string -> Key)
    requires AllShuffled(msgs, others, ps)
    requires forall i :: 0 <= i < |msgs| ==> DistinctNumbers(msgs[i], keyOf)
    ensures Commands(model, msgs, keyOf) == Commands(model, others, keyOf)
  {
    if msgs != [] {
      var m := |msgs| - 1;
      CommandsIgnoreOrder(model, msgs[..m], others[..m], ps[..m], keyOf);
      CommandIgnoresOrder(model, msgs[m], others[m], ps[m], keyOf);
    }
  }

  lemma {:induction false} GazeboStreamFromCommands(model: string, msgs: seq<Message>, others: seq<Message>)
    requires |msgs| == |others| && forall i :: 0 <= i < |msgs| ==> Complete(msgs[i]) && Complete(others[i])
    requires forall i :: 0 <= i < |msgs| ==>
               Command(model, msgs[i], FirstNumber) == Command(model, others[i], FirstNumber)
    ensures GazeboRun(model, msgs).out == GazeboRun(model, others).out
  {
    if msgs != [] {
      var m := |msgs| - 1;
      GazeboStreamFromCommands(model, msgs[..m], others[..m]);
    }
  }

  /** Whatever order each message lists its joints in, both bridges publish the same command streams,
      as long as the joint numbers within a message are distinct. */
  lemma StreamsIgnoreJointOrder(model: string, msgs: seq<Message>, others: seq<Message>, ps: seq<seq<nat>>)
    requires AllShuffled(msgs, others, ps)
    ensures (forall i :: 0 <= i < |msgs| ==> DistinctNumbers(msgs[i], JointNumber)) ==>
              MuJoCoRun(model, msgs).published == MuJoCoRun(model, others).published
    ensures (forall i :: 0 <= i < |msgs| ==> DistinctNumbers(msgs[i], FirstNumber)) ==>
              GazeboRun(model, msgs).out == GazeboRun(model, others).out
  {
    if forall i :: 0 <= i < |msgs| ==> DistinctNumbers(msgs[i], JointNumber) {
      CommandsIgnoreOrder(model, msgs, others, ps, JointNumber);
      MuJoCoPublishesChanges(model, msgs);
      MuJoCoPublishesChanges(model, others);
    }
    if forall i :: 0 <= i < |msgs| ==> DistinctNumbers(msgs[i], FirstNumber) {
      forall i | 0 <= i < |msgs|
        ensures Command(model, msgs[i], FirstNumber) == Command(model, others[i], FirstNumber)
      {
        CommandIgnoresOrder(model, msgs[i], others[i], ps[i], FirstNumber);
      }
      GazeboStreamFromCommands(model, msgs, others);
    }
  }

  /** The re-published message lists the same joints, each with its own position and velocity, in the order
      of their numbers, and holds no NaN effort. */
  lemma SortedMessageFaithful(msg: Message, k: nat, m: nat)
    requires Complete(msg) && k <= m < |msg.name|
    ensures var s, ix := SortedMessage(msg), SortedIndexes(msg, FirstNumber);
            && (forall i: nat :: i in ix <==> i < |msg.name|)
            && |s.name| == |s.position| == |s.velocity| == |s.effort| == |ix| > m
            && s.name[k] == msg.name[ix[k]]
            && s.position[k] == msg.position[ix[k]] && s.velocity[k] == msg.velocity[ix[k]]
            && s.effort[k] == (if msg.effort[ix[k]] == None then Some(0.0) else msg.effort[ix[k]])
            && KeyLe(FirstNumber(s.name[k]), FirstNumber(s.name[m]))
  {
    IndexesByNumber(msg, FirstNumber, k, m);
  }

  lemma IndexesByNumber(msg: Message, keyOf: string -> Key, k: nat, m: nat)
    requires k <= m < |msg.name|
    ensures var ix := SortedIndexes(msg, keyOf);
            && |ix| == |msg.name| && (forall i: nat :: i in ix <==> i < |msg.name|)
            && KeyLe(keyOf(msg.name[ix[k]]), keyOf(msg.name[ix[m]]))
  {
    var keys, ix := KeysOf(msg.name, keyOf), SortedIndexes(msg, keyOf);
    SortSorts(keys, 0);
    assert k < m ==> Before(keys, ix[k], ix[m]);
    assert keys[ix[k]] == keyOf(msg.name[ix[k]]) && keys[ix[m]] == keyOf(msg.name[ix[m]]);
  }

  /* ---- Standard joint names ---- */

  function Digit(d: nat): (c: char)
    requires d < 10
    ensures IsDigit(c) && c as int - '0' as int == d
  {
    ('0' as int + d) as char
  }

  /** str(n) */
  function Decimal(n: nat): (s: string)
    ensures |s| > 0 && forall i :: 0 <= i < |s| ==> IsDigit(s[i])
  {
    if n < 10 then [Digit(n)] else Decimal(n / 10) + [Digit(n % 10)]
  }

  lemma {:induction false} NumberOfAppended(s: string, c: char, acc: nat)
    requires IsDigit(c) && forall i :: 0 <= i < |s| ==> IsDigit(s[i])
    ensures LeadingNumber(s + [c], acc) == 10 * LeadingNumber(s, acc) + (c as int - '0' as int)
  {
    if s == "" {
      assert s + [c] == [c];
      assert LeadingNumber([c][1..], 10 * acc + (c as int - '0' as int)) == 10 * acc + (c as int - '0' as int);
    } else {
      assert (s + [c])[1..] == s[1..] + [c];
      NumberOfAppended(s[1..], c, 10 * acc + (s[0] as int - '0' as int));
    }
  }

  lemma {:induction false} DecimalReadsBack(n: nat)
    ensures LeadingNumber(Decimal(n), 0) == n
  {
    if n < 10 {
      assert LeadingNumber([Digit(n)][1..], n) == n;
    } else {
      DecimalReadsBack(n / 10);
      NumberOfAppended(Decimal(n / 10), Digit(n % 10), 0);
    }
  }

  /** Both searches read the number n off a joint named joint_n. */
  lemma StandardNameNumber(n: nat)
    ensures JointNumber("joint_" + Decimal(n)) == Num(n) == FirstNumber("joint_" + Decimal(n))
  {
    var d, s := Decimal(n), "joint_" + Decimal(n);
    DecimalReadsBack(n);
    assert s[6..] == d && s[6] == d[0];
    assert s[1..][1..][1..][1..][1..][1..] == d;
    assert forall i :: 0 <= i < 6 ==> !IsDigit(s[i]);
    SkipNonDigit(s);
    SkipNonDigit(s[1..]);
    SkipNonDigit(s[1..][1..]);
    SkipNonDigit(s[1..][1..][1..]);
    SkipNonDigit(s[1..][1..][1..][1..]);
    SkipNonDigit(s[1..][1..][1..][1..][1..]);
  }

  lemma SkipNonDigit(s: string)
    requires s != "" && !IsDigit(s[0])
    ensures FirstNumber(s) == FirstNumber(s[1..])
  {
  }

  /** at[i] is where the message lists joint_(i + 1); it lists no others. */
  ghost predicate ListsJoints(msg: Message, at: seq<nat>) {
    Permutation(at, |msg.name|) && forall i :: 0 <= i < |at| ==> msg.name[at[i]] == "joint_" + Decimal(i + 1)
  }

  lemma JointsInOrder(msg: Message, at: seq<nat>, keyOf: string -> Key)
    requires ListsJoints(msg, at)
    requires forall n: nat :: keyOf("joint_" + Decimal(n)) == Num(n)
    ensures InOrder(KeysOf(msg.name, keyOf), at)
    ensures forall i :: 0 <= i < |at| ==> KeysOf(msg.name, keyOf)[at[i]] == Num(i + 1)
  {
    forall i | 0 <= i < |at| ensures KeysOf(msg.name, keyOf)[at[i]] == Num(i + 1) {
      assert keyOf("joint_" + Decimal(i + 1)) == Num(i + 1);
    }
  }

  /** With joints joint_1 to joint_n, listed in any order, the command gives each its own position by number:
      entry i - 1 is the position of joint_i. */
  lemma StandardCommand(model: string, msg: Message, at: seq<nat>, keyOf: string -> Key)
    requires Complete(msg) && ListsJoints(msg, at) && model != "p3020"
    requires forall n: nat :: keyOf("joint_" + Decimal(n)) == Num(n)
    ensures var c := Command(model, msg, keyOf);
            |c| == |msg.name| && forall i :: 0 <= i < |c| ==> c[i] == msg.position[at[i]]
  {
    var keys := KeysOf(msg.name, keyOf);
    var ix, left := CommandListsJoints(model, msg, keyOf);
    JointsInOrder(msg, at, keyOf);
    OrderIsUnique(keys, ix, at);
  }

  /** On the p3020 the same without joint_4. */
  lemma StandardCommandP3020(msg: Message, at: seq<nat>, keyOf: string -> Key)
    requires Complete(msg) && ListsJoints(msg, at) && |at| >= 4
    requires forall n: nat :: keyOf("joint_" + Decimal(n)) == Num(n)
    ensures var c, kept := Command("p3020", msg, keyOf), at[..3] + at[4..];
            |c| == |msg.name| - 1 && forall i :: 0 <= i < |c| ==> c[i] == msg.position[kept[i]]
  {
    var keys, kept := KeysOf(msg.name, keyOf), at[..3] + at[4..];
    var ix, left := CommandListsJoints("p3020", msg, keyOf);
    JointsInOrder(msg, at, keyOf);
    Joint4LeftOut(msg, at, keyOf, left);
    KeptInOrder(keys, at);
    forall k: nat ensures k in ix <==> k in kept {
      KeptAreOthers(at, |msg.name|, k);
    }
    OrderIsUnique(keys, ix, kept);
  }

  /** For both bridges: with joints joint_1 to joint_n in any order, the commands are their positions by number,
      without joint_4 on the p3020. */
  lemma BothCommandStandardJoints(model: string, msg: Message, at: seq<nat>)
    requires Complete(msg) && ListsJoints(msg, at) && (model == "p3020" ==> |at| >= 4)
    ensures var kept := if model == "p3020" then at[..3] + at[4..] else at;
            && |Command(model, msg, JointNumber)| == |Command(model, msg, FirstNumber)| == |kept|
            && forall i :: 0 <= i < |kept| ==>
                 kept[i] < |msg.position|
                 && Command(model, msg, JointNumber)[i] == Command(model, msg, FirstNumber)[i] == msg.position[kept[i]]
  {
    forall n: nat ensures JointNumber("joint_" + Decimal(n)) == Num(n) == FirstNumber("joint_" + Decimal(n)) {
      StandardNameNumber(n);
    }
    if model == "p3020" {
      StandardCommandP3020(msg, at, JointNumber);
      StandardCommandP3020(msg, at, FirstNumber);
    } else {
      StandardCommand(model, msg, at, JointNumber);
      StandardCommand(model, msg, at, FirstNumber);
    }
  }

  lemma KeptInOrder(keys: seq<Key>, at: seq<nat>)
    requires InOrder(keys, at) && |at| >= 4
    ensures InOrder(keys, at[..3] + at[4..])
  {
    var kept := at[..3] + at[4..];
    forall i | 0 <= i < |kept| ensures kept[i] == at[if i < 3 then i else i + 1] {
    }
  }

  lemma KeptAreOthers(at: seq<nat>, n: nat, k: nat)
    requires Permutation(at, n) && n >= 4
    ensures k in at[..3] + at[4..] <==> k < n && k != at[3]
  {
    var kept := at[..3] + at[4..];
    if k < n && k != at[3] {
      assert k in at;
      var i :| 0 <= i < n && at[i] == k;
      assert kept[if i < 3 then i else i - 1] == k;
    }
    if k in kept {
      var j :| 0 <= j < |kept| && kept[j] == k;
      assert k == at[if j < 3 then j else j + 1];
    }
  }

  lemma Joint4LeftOut(msg: Message, at: seq<nat>, keyOf: string -> Key, left: Option<nat>)
    requires ListsJoints(msg, at) && |at| >= 4
    requires forall n: nat :: keyOf("joint_" + Decimal(n)) == Num(n)
    requires LeftOut(msg.name, KeysOf(msg.name, keyOf), left)
    ensures left == Some(at[3])
  {
    var keys := KeysOf(msg.name, keyOf);
    JointsInOrder(msg, at, keyOf);
    ShortNames();
    assert msg.name[at[3]] == "joint_4" && OccursAt("joint_4", "joint_4", 0);
    assert Contains(msg.name[at[3]], "joint_4");
    assert left.Some? && left.value in at;
    var i :| 0 <= i < |at| && at[i] == left.value;
    assert i != 3 ==> Before(keys, at[i], at[3]);
    assert keys[at[i]] == Num(i + 1) && keys[at[3]] == Num(4);
    if i < 3 {
      assert msg.name[at[i]] == "joint_" + Decimal(i + 1);
    }
  }

  lemma ShortNames()
    ensures "joint_" + Decimal(4) == "joint_4"
    ensures !Contains("joint_" + Decimal(1), "joint_4")
    ensures !Contains("joint_" + Decimal(2), "joint_4")
    ensures !Contains("joint_" + Decimal(3), "joint_4")
  {
    forall n: nat | 1 <= n <= 3 ensures !Contains("joint_" + Decimal(n), "joint_4") {
      var s := "joint_" + Decimal(n);
      assert |s| == 7 && s[6] == Digit(n) != '4';
      forall i: nat ensures !OccursAt(s, "joint_4", i) {
        if i == 0 { assert s[0..7][6] != "joint_4"[6]; }
      }
    }
  }

  ghost predicate StandardNames(msg: Message) {
    forall i :: 0 <= i < |msg.name| ==> exists n: nat :: msg.name[i] == "joint_" + Decimal(n)
  }

  lemma {:induction false} SameCommands(model: string, msgs: seq<Message>)
    requires forall i :: 0 <= i < |msgs| ==> StandardNames(msgs[i])
    ensures Commands(model, msgs, JointNumber) == Commands(model, msgs, FirstNumber)
  {
    if msgs != [] {
      var m := |msgs| - 1;
      SameCommands(model, msgs[..m]);
      SameKeys(msgs[m]);
    }
  }

  /** On messages with standard joint names the two bridges, with their different searches, ask for the same
      commands; they publish the same streams if and only if the first command is not empty. */
  lemma BridgesAgree(model: string, msgs: seq<Message>)
    requires forall i :: 0 <= i < |msgs| ==> StandardNames(msgs[i])
    ensures Commands(model, msgs, JointNumber) == Commands(model, msgs, FirstNumber)
    ensures MuJoCoRun(model, msgs).published == GazeboRun(model, msgs).out.published <==>
            !OpensEmpty(Commands(model, msgs, FirstNumber))
  {
    SameCommands(model, msgs);
    MuJoCoPublishesChanges(model, msgs);
    GazeboPublishesChanges(model, msgs);
  }

  lemma SameKeys(msg: Message)
    requires StandardNames(msg)
    ensures KeysOf(msg.name, JointNumber) == KeysOf(msg.name, FirstNumber)
  {
    forall i | 0 <= i < |msg.name| ensures JointNumber(msg.name[i]) == FirstNumber(msg.name[i]) {
      var n: nat :| msg.name[i] == "joint_" + Decimal(n);
      StandardNameNumber(n);
    }
  }

  /* ---- The nodes ---- */

  class MuJoCoBridge {
    const model: string
    var previousPositions: seq<real>
    var firstCallback: bool
    var published: seq<seq<real>>

    ghost function State(): MuJoCo
      reads this
    {
      MuJoCo(previousPositions, firstCallback, published)
    }

    constructor (model: string)
      ensures this.model == model && State() == MUJOCO_START
    {
      this.model := model;
      previousPositions, firstCallback, published := [], true, [];
    }

    /** sort_joint_states, lines 48-72: IndexError (None) on an incomplete message. */
    method SortJointStates(msg: Message) returns (ix: Option<seq<nat>>)
      ensures ix.Some? <==> Complete(msg)
      ensures ix == None <==>
                |msg.position| < |msg.name| || |msg.velocity| < |msg.name| || |msg.effort| < |msg.name|
      ensures ix.Some? ==> ix.value == CommandIndexes(model, msg.name, SortedIndexes(msg, JointNumber))
    {
      var sorted := SortedIndexes(msg, JointNumber);
      if !Complete(msg) {
        return None;
      }
      if model == "p3020" {
        var joint4 := FirstJoint4(msg.name, sorted);
        if joint4.Some? {
          sorted := Without(sorted, joint4);
        } else {
          WithoutNothing(sorted);
        }
      }
      ix := Some(sorted);
    }

    /** listener_callback, lines 35-46. */
    method ListenerCallback(msg: Message) returns (raised: bool)
      modifies this
      ensures raised == !Complete(msg)
      ensures State() == MuJoCoStep(model, old(State()), msg)
    {
      var ix := SortJointStates(msg);
      if ix == None {
        return true;
      }
      raised := false;
      var positions := At(msg.position[..|msg.name|], ix.value);
      if firstCallback || positions != previousPositions {
        published := published + [positions];
        previousPositions := positions;
        firstCallback := false;
      }
    }
  }

  class GazeboConnection {
    const model: string
    var previousCommand: seq<real>
    var commandMsg: seq<real>
    var currentPos: seq<real>
    var published: seq<seq<real>>
    var joints: seq<Message>

    ghost function State(): Gazebo
      reads this
    {
      Gazebo(Stream(previousCommand, published), joints)
    }

    constructor (model: string)
      ensures this.model == model && State() == GAZEBO_START
    {
      this.model := model;
      previousCommand, commandMsg, currentPos, published, joints := [], [], [], [], [];
    }

    /** sort_joint_states, lines 42-66: writes current_pos and the command message. */
    method SortJointStates(msg: Message) returns (sorted: Option<Message>)
      modifies this`currentPos, this`commandMsg
      ensures sorted.Some? <==> Complete(msg)
      ensures sorted == None <==>
                |msg.position| < |msg.name| || |msg.velocity| < |msg.name| || |msg.effort| < |msg.name|
      ensures if Complete(msg) then
                sorted.value == SortedMessage(msg) && commandMsg == currentPos == Command(model, msg, FirstNumber)
              else commandMsg == old(commandMsg) && currentPos == old(currentPos)
    {
      if !Complete(msg) {
        return None;
      }
      var ix := SortedIndexes(msg, FirstNumber);
      var joint4 := FirstJoint4(msg.name, ix);
      if model == "p3020" {
        WithoutIndexes(ix, joint4, |msg.name|);
        currentPos := At(msg.position[..|msg.name|], Without(ix, joint4));
      } else {
        currentPos := At(msg.position[..|msg.name|], ix);
      }
      commandMsg := currentPos;
      sorted := Some(SortedMessage(msg));
    }

    /** listener_callback, lines 35-40. */
    method ListenerCallback(msg: Message) returns (raised: bool)
      modifies this
      ensures raised == !Complete(msg)
      ensures State() == GazeboStep(model, old(State()), msg)
    {
      var sorted := SortJointStates(msg);
      if sorted == None {
        return true;
      }
      raised := false;
      joints := joints + [sorted.value];
      if previousCommand != commandMsg {  // `data == []` is never true of an array
        published := published + [commandMsg];
        previousCommand := commandMsg;
      }
    }
  }
}
