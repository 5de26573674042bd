/** The scan for repeated keys, over the tokens a JSON decoder delivers. */
module JsonKeys {
  import opened Common

  datatype Json =
    | Text(s: string)
    | Atom
    | Array(items: seq<Json>)
    | Object(members: seq<Member>)

  datatype Member = Member(key: string, value: Json)

  /** A decoder delivers keys and string values alike. */
  datatype Token = Str(s: string) | Plain | BeginObject | EndObject | BeginArray | EndArray

  type Stream = seq<Token>

  function Tokens(t: Json): Stream {
    match t
    case Text(s) => [Str(s)]
    case Atom => [Plain]
    case Array(items) => [BeginArray] + ItemTokens(items) + [EndArray]
    case Object(members) => [BeginObject] + MemberTokens(members) + [EndObject]
  }

  function ItemTokens(items: seq<Json>): Stream {
    if items == [] then [] else Tokens(items[0]) + ItemTokens(items[1..])
  }

  function MemberTokens(members: seq<Member>): Stream {
    if members == [] then []
    else [Str(members[0].key)] + Tokens(members[0].value) + MemberTokens(members[1..])
  }

  /** Some object, at any depth, repeats a key. */
  predicate Repeats(t: Json) {
    match t
    case Text(_) => false
    case Atom => false
    case Array(items) => exists i | 0 <= i < |items| :: Repeats(items[i])
    case Object(members) =>
      || (exists i, j | 0 <= i < j < |members| :: members[i].key == members[j].key)
      || (exists i | 0 <= i < |members| :: Repeats(members[i].value))
  }

  // ----- the scan -----

  datatype Outcome = Duplicate | Failure | Clean(rest: Stream)

  /** Another element follows in the array or object being read. */
  predicate More(s: Stream) {
    s != [] && s[0] != EndObject && s[0] != EndArray
  }

  function Scan(s: Stream): (r: Outcome)
    ensures r.Clean? ==> |r.rest| < |s|
    decreases |s|, 0
  {
    if s == [] then Failure
    else match s[0]
      case BeginObject => ScanObject(s[1..], {})
      case BeginArray => ScanArray(s[1..])
      case _ => Clean(s[1..])
  }

  function ScanObject(s: Stream, seen: set<string>): (r: Outcome)
    ensures r.Clean? ==> |r.rest| < |s|
    decreases |s|, 1
  {
    if !More(s) then Close(s)
    else if !s[0].Str? then Failure
    else if s[0].s in seen then Duplicate
    else
      var value := Scan(s[1..]);
      if value.Clean? then ScanObject(value.rest, seen + {s[0].s}) else value
  }

  function ScanArray(s: Stream): (r: Outcome)
    ensures r.Clean? ==> |r.rest| < |s|
    decreases |s|, 1
  {
    if !More(s) then Close(s)
    else
      var item := Scan(s);
      if item.Clean? then ScanArray(item.rest) else item
  }

  function Close(s: Stream): (r: Outcome)
    ensures r.Clean? ==> |r.rest| < |s|
  {
    if s == [] then Failure else Clean(s[1..])
  }

  // ----- what it finds -----

  predicate ItemsRepeat(items: seq<Json>) {
    exists i | 0 <= i < |items| :: Repeats(items[i])
  }

  /** A key is already taken, or repeated, or repeated further down. */
  predicate MembersRepeat(members: seq<Member>, seen: set<string>) {
    || (exists i | 0 <= i < |members| :: members[i].key in seen)
    || (exists i, j | 0 <= i < j < |members| :: members[i].key == members[j].key)
    || (exists i | 0 <= i < |members| :: Repeats(members[i].value))
  }

  lemma ItemsRepeatCons(items: seq<Json>)
    requires items != []
    ensures ItemsRepeat(items) <==> Repeats(items[0]) || ItemsRepeat(items[1..])
  {
    var tail := items[1..];
    assert forall i | 0 <= i < |tail| :: tail[i] == items[i + 1];
    if i :| 0 <= i < |items| && Repeats(items[i]) {
      assert i > 0 ==> items[i] == tail[i - 1];
    }
  }

  lemma MembersRepeatCons(members: seq<Member>, seen: set<string>)
    requires members != []
    ensures MembersRepeat(members, seen) <==>
            members[0].key in seen || Repeats(members[0].value) || MembersRepeat(members[1..], seen + {members[0].key})
  {
    var tail := members[1..];
    assert forall i | 0 <= i < |tail| :: tail[i] == members[i + 1];
    if MembersRepeat(members, seen) {
      if i :| 0 <= i < |members| && members[i].key in seen {
        assert i > 0 ==> members[i] == tail[i - 1];
      } else if i, j :| 0 <= i < j < |members| && members[i].key == members[j].key {
        assert tail[j - 1] == members[j];
        assert i > 0 ==> tail[i - 1] == members[i];
      } else {
        var i :| 0 <= i < |members| && Repeats(members[i].value);
        assert i > 0 ==> members[i] == tail[i - 1];
      }
    }
  }

  /** For every tree and whatever follows it: the scan reports a duplicate exactly when some object repeats a
      key, and otherwise reads exactly the tree. */
  lemma {:induction false} ScanIsExact(t: Json, rest: Stream)
    ensures Scan(Tokens(t) + rest) == if Repeats(t) then Duplicate else Clean(rest)
    decreases t
  {
    var s := Tokens(t) + rest;
    match t
    case Text(_) =>
      assert s[1..] == rest;
    case Atom =>
      assert s[1..] == rest;
    case Array(items) =>
      assert s[1..] == ItemTokens(items) + ([EndArray] + rest);
      ScanArrayIsExact(items, rest);
    case Object(members) =>
      assert s[1..] == MemberTokens(members) + ([EndObject] + rest);
      ScanObjectIsExact(members, {}, rest);
  }

  lemma TokensStart(t: Json, rest: Stream)
    ensures More(Tokens(t) + rest)
  {
  }

  lemma {:induction false} ScanArrayIsExact(items: seq<Json>, rest: Stream)
    ensures ScanArray(ItemTokens(items) + ([EndArray] + rest)) == if ItemsRepeat(items) then Duplicate else Clean(rest)
    decreases items
  {
    var s := ItemTokens(items) + ([EndArray] + rest);
    if items == [] {
      assert s[1..] == rest;
    } else {
      var tail := ItemTokens(items[1..]) + ([EndArray] + rest);
      assert s == Tokens(items[0]) + tail;
      TokensStart(items[0], tail);
      ScanIsExact(items[0], tail);
      ScanArrayIsExact(items[1..], rest);
      ItemsRepeatCons(items);
    }
  }

  lemma {:induction false} ScanObjectIsExact(members: seq<Member>, seen: set<string>, rest: Stream)
    ensures ScanObject(MemberTokens(members) + ([EndObject] + rest), seen) ==
            if MembersRepeat(members, seen) then Duplicate else Clean(rest)
    decreases members
  {
    var s := MemberTokens(members) + ([EndObject] + rest);
    if members == [] {
      assert s[1..] == rest;
    } else {
      var tail := MemberTokens(members[1..]) + ([EndObject] + rest);
      assert s == [Str(members[0].key)] + (Tokens(members[0].value) + tail);
      assert s[1..] == Tokens(members[0].value) + tail;
      ScanIsExact(members[0].value, tail);
      ScanObjectIsExact(members[1..], seen + {members[0].key}, rest);
      MembersRepeatCons(members, seen);
    }
  }

  // ----- as the program runs it -----

  /** A decoder holds what it has not delivered yet. */
  class Decoder {
    var stream: Stream

    constructor (stream: Stream)
      ensures this.stream == stream
    {
      this.stream := stream;
    }

    method Next() returns (t: Option<Token>)
      modifies this
      ensures old(stream) == [] ==> t.None? && stream == []
      ensures old(stream) != [] ==> t == Some(old(stream)[0]) && stream == old(stream)[1..]
    {
      if stream == [] {
        return None;
      }
      t := Some(stream[0]);
      stream := stream[1..];
    }

    /** Reports a duplicate, or a failure, or leaves the stream after the value. */
    method HasDuplicateKeys() returns (duplicate: bool, ok: bool)
      modifies this
      ensures var r := Scan(old(stream));
              && duplicate == r.Duplicate? && ok == !r.Failure?
              && (r.Clean? ==> stream == r.rest)
      decreases |stream|, 0
    {
      var t := Next();
      if t.None? {
        return false, false;
      }
      if t.value == BeginObject {
        duplicate, ok := ObjectHasDuplicateKeys();
      } else if t.value == BeginArray {
        duplicate, ok := ArrayHasDuplicateKeys();
      } else {
        return false, true;
      }
    }

    method ObjectHasDuplicateKeys() returns (duplicate: bool, ok: bool)
      modifies this
      ensures var r := ScanObject(old(stream), {});
              && duplicate == r.Duplicate? && ok == !r.Failure?
              && (r.Clean? ==> stream == r.rest)
      decreases |stream|, 1
    {
      ghost var whole := ScanObject(stream, {});
      var seen: set<string> := {};
      while More(stream)
        invariant |stream| <= |old(stream)| && whole == ScanObject(stream, seen)
        decreases |stream|
      {
        var t := Next();
        if !t.value.Str? {
          return false, false;
        }
        var key := t.value.s;
        if key in seen {
          return true, true;
        }
        seen := seen + {key};
        duplicate, ok := HasDuplicateKeys();
        if duplicate || !ok {
          return;
        }
      }
      var t := Next();
      return false, t.Some?;
    }

    method ArrayHasDuplicateKeys() returns (duplicate: bool, ok: bool)
      modifies this
      ensures var r := ScanArray(old(stream));
              && duplicate == r.Duplicate? && ok == !r.Failure?
              && (r.Clean? ==> stream == r.rest)
      decreases |stream|, 1
    {
      ghost var whole := ScanArray(stream);
      while More(stream)
        invariant |stream| <= |old(stream)| && whole == ScanArray(stream)
        decreases |stream|
      {
        duplicate, ok := HasDuplicateKeys();
        if duplicate || !ok {
          return;
        }
      }
      var t := Next();
      return false, t.Some?;
    }
  }
}
