/** Text utilities (src/catgpt/utils/text.py). */
module Text {
  import opened Wrappers
  import opened PyStr
  import opened StorageTypes

  const MAX_TEXT_LENGTH: int := 4096

  // ---------------------------------------------------------------------------
  // messages_to_segments

  /** The markdown block a non-system message contributes: `## role\ncontent\n\n`. */
  function Block(m: Message): (b: string)
    ensures |b| > 0
  {
    "## " + m.role + "\n" + m.content + "\n\n"
  }

  /** The blocks of the non-system messages, in order. */
  function Blocks(ms: seq<Message>): (bs: seq<string>)
    ensures |bs| <= |ms|
    ensures forall k :: 0 <= k < |bs| ==> |bs[k]| > 0
  {
    if ms == [] then []
    else
      var last := ms[|ms| - 1];
      Blocks(ms[..|ms| - 1]) + (if last.role == "system" then [] else [Block(last)])
  }

  /**
   * The greedy grouping the loop performs: the completed segments and the segment
   * being filled. A block that would push the running length above `maxLength`
   * starts a new segment.
   */
  function Pack(blocks: seq<string>, maxLength: int): (seq<string>, string) {
    if blocks == [] then ([], "")
    else
      var previous := Pack(blocks[..|blocks| - 1], maxLength);
      var done, segment := previous.0, previous.1;
      var b := blocks[|blocks| - 1];
      if |segment| + |b| > maxLength then (done + [segment], b) else (done, segment + b)
  }

  /** Python's `s[0:j]`, where a negative `j` counts from the end. */
  function PyPrefix(s: string, j: int): (r: string)
    ensures |r| <= |s| && r == s[..|r|]
    ensures 0 <= j <= |s| ==> |r| == j
  {
    if j >= 0 then s[..if j <= |s| then j else |s|]
    else s[..if |s| + j >= 0 then |s| + j else 0]
  }

  /** The last segment after the cut to `maxLength - 3` characters plus "...". */
  function Truncate(segment: string, maxLength: int): string {
    if |segment| > maxLength then PyPrefix(segment, maxLength - 3) + "..." else segment
  }

  /** What `messages_to_segments(messages, max_length)` returns. */
  function Segments(ms: seq<Message>, maxLength: int): seq<string> {
    var packed := Pack(Blocks(ms), maxLength);
    var last := Truncate(packed.1, maxLength);
    if |last| > 0 then packed.0 + [last] else packed.0
  }

  /** Lines of the loop in `messages_to_segments`: the greedy packing of the blocks. */
  method PackMessages(messages: seq<Message>, maxLength: int) returns (segments: seq<string>, segment: string)
    ensures segments == Pack(Blocks(messages), maxLength).0
    ensures segment == Pack(Blocks(messages), maxLength).1
  {
    segment := "";
    var totalLen := 0;
    segments := [];
    for i := 0 to |messages|
      invariant segments == Pack(Blocks(messages[..i]), maxLength).0
      invariant segment == Pack(Blocks(messages[..i]), maxLength).1
      invariant totalLen == |segment|
    {
      var m := messages[i];
      PackStep(messages, i, maxLength);
      if m.role == "system" {
        continue;
      }
      var text := Block(m);
      var textLen := |text|;
      if totalLen + textLen > maxLength {
        segments := segments + [segment];
        segment := "";
        totalLen := 0;
      }
      segment := segment + text;
      totalLen := totalLen + textLen;
    }
    assert messages[..|messages|] == messages;
  }

  method MessagesToSegments(messages: seq<Message>, maxLength: int := MAX_TEXT_LENGTH)
    returns (segments: seq<string>)
    ensures segments == Segments(messages, maxLength)
  {
    var segment;
    segments, segment := PackMessages(messages, maxLength);
    if |segment| > maxLength {
      segment := PyPrefix(segment, maxLength - 3) + "...";
    }
    if |segment| > 0 {
      segments := segments + [segment];
    }
  }

  lemma BlocksSnoc(ms: seq<Message>, i: nat)
    requires i < |ms|
    ensures Blocks(ms[..i + 1]) == Blocks(ms[..i]) + (if ms[i].role == "system" then [] else [Block(ms[i])])
  {
    assert ms[..i + 1][..i] == ms[..i];
  }

  /** One more message: a system message leaves the packing as it was, any other adds its block. */
  lemma PackStep(ms: seq<Message>, i: nat, maxLength: int)
    requires i < |ms|
    ensures var p := Pack(Blocks(ms[..i]), maxLength);
      var b := Block(ms[i]);
      Pack(Blocks(ms[..i + 1]), maxLength)
        == if ms[i].role == "system" then p
           else if |p.1| + |b| > maxLength then (p.0 + [p.1], b) else (p.0, p.1 + b)
  {
    BlocksSnoc(ms, i);
    if ms[i].role == "system" {
      assert Blocks(ms[..i + 1]) == Blocks(ms[..i]);
    } else {
      PackSnoc(Blocks(ms[..i]), Block(ms[i]), maxLength);
    }
  }

  lemma PackSnoc(bs: seq<string>, b: string, maxLength: int)
    ensures var p := Pack(bs, maxLength);
      Pack(bs + [b], maxLength) == if |p.1| + |b| > maxLength then (p.0 + [p.1], b) else (p.0, p.1 + b)
  {
    assert (bs + [b])[..|bs|] == bs;
  }

  /** Nothing is lost by packing: the segments read back as the blocks. */
  lemma {:induction false} PackConcat(blocks: seq<string>, maxLength: int)
    ensures Concat(Pack(blocks, maxLength).0) + Pack(blocks, maxLength).1 == Concat(blocks)
  {
    if blocks != [] {
      var init := blocks[..|blocks| - 1];
      var b := blocks[|blocks| - 1];
      PackConcat(init, maxLength);
      var done, segment := Pack(init, maxLength).0, Pack(init, maxLength).1;
      assert blocks == init + [b];
      ConcatAppend(init, b);
      if |segment| + |b| > maxLength {
        ConcatAppend(done, segment);
      }
    }
  }

  lemma {:induction false} PackSegmentNonEmpty(blocks: seq<string>, maxLength: int)
    requires forall k :: 0 <= k < |blocks| ==> |blocks[k]| > 0
    ensures (|Pack(blocks, maxLength).1| > 0) == (blocks != [])
  {
    if blocks != [] {
      PackSegmentNonEmpty(blocks[..|blocks| - 1], maxLength);
    }
  }

  /** When every block fits, every completed segment and the open one fit too. */
  lemma {:induction false} PackFits(blocks: seq<string>, maxLength: int)
    requires maxLength >= 0
    requires forall k :: 0 <= k < |blocks| ==> |blocks[k]| <= maxLength
    ensures forall k :: 0 <= k < |Pack(blocks, maxLength).0| ==> |Pack(blocks, maxLength).0[k]| <= maxLength
    ensures |Pack(blocks, maxLength).1| <= maxLength
  {
    if blocks != [] {
      var init := blocks[..|blocks| - 1];
      assert forall k :: 0 <= k < |init| ==> init[k] == blocks[k];
      PackFits(init, maxLength);
      assert |blocks[|blocks| - 1]| <= maxLength;
    }
  }

  /** The segment list is non-empty exactly when some message is not a system message. */
  lemma SegmentsNonEmptyIff(ms: seq<Message>, maxLength: int)
    requires maxLength >= 0
    ensures (|Segments(ms, maxLength)| > 0) <==> (exists k :: 0 <= k < |ms| && ms[k].role != "system")
  {
    BlocksNonEmptyIff(ms);
    var blocks := Blocks(ms);
    PackSegmentNonEmpty(blocks, maxLength);
    var segment := Pack(blocks, maxLength).1;
    if blocks == [] {
      assert Pack(blocks, maxLength) == ([], "");
      assert Segments(ms, maxLength) == [];
    } else {
      assert |Truncate(segment, maxLength)| > 0;
    }
  }

  lemma {:induction false} BlocksNonEmptyIff(ms: seq<Message>)
    ensures (Blocks(ms) != []) <==> (exists k :: 0 <= k < |ms| && ms[k].role != "system")
  {
    if ms != [] {
      var init := ms[..|ms| - 1];
      BlocksNonEmptyIff(init);
      if exists k :: 0 <= k < |init| && init[k].role != "system" {
        var k :| 0 <= k < |init| && init[k].role != "system";
        assert ms[k] == init[k];
      }
      if exists k :: 0 <= k < |ms| && ms[k].role != "system" {
        var k :| 0 <= k < |ms| && ms[k].role != "system";
        if k < |init| {
          assert init[k] == ms[k];
        }
      }
    }
  }

  /** Only the last segment is cut; so with `maxLength >= 3` it is at most `maxLength` long. */
  lemma LastSegmentBounded(ms: seq<Message>, maxLength: int)
    requires maxLength >= 3
    requires |Segments(ms, maxLength)| > 0
    ensures |Segments(ms, maxLength)[|Segments(ms, maxLength)| - 1]| <= maxLength
  {
    var blocks := Blocks(ms);
    PackSegmentNonEmpty(blocks, maxLength);
    var segment := Pack(blocks, maxLength).1;
    var last := Truncate(segment, maxLength);
    if |segment| > maxLength {
      assert |PyPrefix(segment, maxLength - 3)| == maxLength - 3;
    }
    assert |last| > 0 || blocks == [];
  }

  /** With blocks that fit, every segment fits and no cut is made. */
  lemma SegmentsFitWhenBlocksFit(ms: seq<Message>, maxLength: int)
    requires maxLength >= 0
    requires forall k :: 0 <= k < |ms| ==> |Block(ms[k])| <= maxLength
    ensures forall k :: 0 <= k < |Segments(ms, maxLength)| ==> |Segments(ms, maxLength)[k]| <= maxLength
    ensures Concat(Segments(ms, maxLength)) == Concat(Blocks(ms))
  {
    var blocks := Blocks(ms);
    BlocksFit(ms, maxLength);
    PackFits(blocks, maxLength);
    PackConcat(blocks, maxLength);
    var done, segment := Pack(blocks, maxLength).0, Pack(blocks, maxLength).1;
    assert Truncate(segment, maxLength) == segment;
    if |segment| > 0 {
      assert Segments(ms, maxLength) == done + [segment];
      ConcatAppend(done, segment);
    } else {
      assert Segments(ms, maxLength) == done;
      assert Concat(done) + segment == Concat(done);
    }
  }

  lemma {:induction false} BlocksFit(ms: seq<Message>, maxLength: int)
    requires forall k :: 0 <= k < |ms| ==> |Block(ms[k])| <= maxLength
    ensures forall k :: 0 <= k < |Blocks(ms)| ==> |Blocks(ms)[k]| <= maxLength
  {
    if ms != [] {
      var init := ms[..|ms| - 1];
      assert forall k :: 0 <= k < |init| ==> init[k] == ms[k];
      BlocksFit(init, maxLength);
    }
  }

  /** A system message anywhere in the list does not change the segments. */
  lemma SystemMessageIgnored(a: seq<Message>, m: Message, b: seq<Message>, maxLength: int)
    requires m.role == "system"
    ensures Segments(a + [m] + b, maxLength) == Segments(a + b, maxLength)
  {
    BlocksAppend(a + [m], b);
    BlocksAppend(a, b);
    assert (a + [m])[..|a|] == a;
    assert Blocks(a + [m]) == Blocks(a) + [];
    assert Blocks(a) + [] == Blocks(a);
  }

  lemma {:induction false} BlocksAppend(a: seq<Message>, b: seq<Message>)
    ensures Blocks(a + b) == Blocks(a) + Blocks(b)
  {
    if b != [] {
      var init := b[..|b| - 1];
      assert (a + b)[..|a + b| - 1] == a + init;
      BlocksAppend(a, init);
    } else {
      assert a + b == a;
    }
  }

  // ---------------------------------------------------------------------------
  // split_by_length, split_to_segments

  /** `[text[i:i + length] for i in range(0, len(text), length)]`; a zero step raises. */
  function SplitByLength(text: string, length: int := MAX_TEXT_LENGTH): (r: seq<string>)
    requires length != 0
    ensures length < 0 || text == [] <==> r == []
    ensures length > 0 ==> Concat(r) == text
    ensures forall k :: 0 <= k < |r| - 1 ==> |r[k]| == length
    ensures |r| > 0 ==> 0 < |r[|r| - 1]| <= length
    decreases |text|
  {
    if length < 0 || |text| == 0 then []
    else if |text| <= length then [text]
    else
      var rest := SplitByLength(text[length..], length);
      ConcatPrepend(text[..length], rest);
      assert text[..length] + text[length..] == text;
      [text[..length]] + rest
  }

  lemma {:induction false} ConcatPrepend(x: string, xs: seq<string>)
    ensures Concat([x] + xs) == x + Concat(xs)
    decreases |xs|
  {
    if xs != [] {
      var init := xs[..|xs| - 1];
      assert ([x] + xs)[..|xs|] == [x] + init;
      ConcatPrepend(x, init);
    } else {
      assert [x] + xs == [x];
      assert Concat([x]) == Concat([]) + x;
    }
  }

  /** What `split_to_segments` does once the text is split; `segments[-1]` raises on an empty split. */
  function ToSegments(text: string, searchResult: string, length: int): (r: Result<seq<string>>)
    ensures r.Err? <==> length <= 0 || text == []
  {
    if length == 0 then Err("ValueError: range() arg 3 must not be zero")
    else
    var segments := SplitByLength(text, length);
    if segments == [] then Err("IndexError: list index out of range")
    else
      var last := segments[|segments| - 1];
      if |last| + |searchResult| > length then Ok(segments + [searchResult])
      else if searchResult != "" then Ok(segments[..|segments| - 1] + [last + "\n\n" + searchResult])
      else Ok(segments)
  }

  method SplitToSegments(text: string, searchResult: string, length: int := MAX_TEXT_LENGTH)
    returns (r: Result<seq<string>>)
    ensures r == ToSegments(text, searchResult, length)
  {
    if length == 0 {
      return Err("ValueError: range() arg 3 must not be zero");
    }
    var segments := SplitByLength(text, length);
    if segments == [] {
      return Err("IndexError: list index out of range");
    }
    var n := |segments|;
    if |segments[n - 1]| + |searchResult| > length {
      segments := segments + [searchResult];
    } else if searchResult != "" {
      segments := segments[n - 1 := segments[n - 1] + "\n\n" + searchResult];
      assert segments == segments[..n - 1] + [segments[n - 1]];
    }
    r := Ok(segments);
  }

  /** The text is kept in order in front of the search result, which is either its own segment or joined by a blank line. */
  lemma SplitToSegmentsKeepsText(text: string, searchResult: string, length: int)
    requires length > 0 && text != []
    ensures ToSegments(text, searchResult, length).Ok?
    ensures var r := ToSegments(text, searchResult, length).value;
      || Concat(r) == text + searchResult
      || Concat(r) == text + "\n\n" + searchResult
  {
    var segments := SplitByLength(text, length);
    var n := |segments|;
    var last := segments[n - 1];
    if |last| + |searchResult| > length {
      ConcatAppend(segments, searchResult);
    } else if searchResult != "" {
      var init := segments[..n - 1];
      assert segments == init + [last];
      ConcatAppend(init, last);
      ConcatAppend(init, last + "\n\n" + searchResult);
    }
  }

  /**
   * The fit test omits the two characters of the "\n\n" separator: a last piece of three
   * characters and a one-character search result pass the test for length 4 and give a
   * 6-character segment.
   */
  lemma SplitToSegmentsOverflows()
    ensures ToSegments("abc", "d", 4) == Ok(["abc\n\nd"])
    ensures |"abc\n\nd"| > 4
  {
    var segments := SplitByLength("abc", 4);
    assert segments == ["abc"];
    assert segments[..0] == [];
    assert "abc" + "\n\n" + "d" == "abc\n\nd";
    assert ToSegments("abc", "d", 4) == Ok([] + ["abc\n\nd"]);
    assert [] + ["abc\n\nd"] == ["abc\n\nd"];
  }

  /** The fit test counting the separator: keeps every segment within `length`. */
  function ToSegmentsFitted(text: string, searchResult: string, length: int): (r: Result<seq<string>>)
    ensures r.Err? <==> length <= 0 || text == []
    ensures r.Ok? && |searchResult| <= length ==> forall k :: 0 <= k < |r.value| ==> |r.value[k]| <= length
  {
    if length == 0 then Err("ValueError: range() arg 3 must not be zero")
    else
    var segments := SplitByLength(text, length);
    if segments == [] then Err("IndexError: list index out of range")
    else
      var last := segments[|segments| - 1];
      if |last| + 2 + |searchResult| > length then Ok(segments + [searchResult])
      else if searchResult != "" then Ok(segments[..|segments| - 1] + [last + "\n\n" + searchResult])
      else Ok(segments)
  }

  // ---------------------------------------------------------------------------
  // get_timeout_from_text

  /** The integer after the last space of the stripped text, or -1 when it is not one. */
  function GetTimeoutFromText(text: string): int {
    var t := Strip(text);
    var index := RFind(t, ' ');
    match ParseInt(t[index + 1..])
    case Some(v) => v
    case None => -1
  }

  /** An error text ending in " <n>" yields n, whatever comes before. */
  lemma TimeoutOfTrailingInteger(prefix: string, n: int)
    ensures GetTimeoutFromText(prefix + " " + IntToString(n)) == n
  {
    var d := IntToString(n);
    IntToStringHasNo(n, ' ');
    var p := prefix + " ";
    assert prefix + " " + d == p + d;
    StripSpaceEnded(p, d);
    ParseIntOfIntToString(n);
    TimeoutOfTail(p + d, d);
  }

  /** The stripped text of `p + d` is `u + d` for a `u` that is empty or ends in a space. */
  lemma StripSpaceEnded(p: string, d: string)
    requires d != [] && !IsSpace(d[0]) && !IsSpace(d[|d| - 1]) && ' ' !in d
    requires p != [] && p[|p| - 1] == ' '
    ensures var t := Strip(p + d); t[RFind(t, ' ') + 1..] == d
  {
    var u := LStrip(p);
    assert u == [] || u[|u| - 1] == ' ' by {
      LStripRemovesLeadingSpace(p);
    }
    var t := Strip(p + d);
    assert t == u + d by {
      LStripAppend(p, d);
      RStripNoTrailing(u + d);
    }
    assert RFind(t, ' ') == |u| - 1 by {
      RFindAppend(u, d, ' ');
    }
    assert t[|u|..] == d;
  }

  lemma TimeoutOfTail(text: string, d: string)
    requires var t := Strip(text); t[RFind(t, ' ') + 1..] == d
    ensures GetTimeoutFromText(text) == ParseInt(d).GetOr(-1)
  {
  }

  lemma RetryAfterExample()
    ensures GetTimeoutFromText("Too Many Requests: retry after 7") == 7
  {
    assert IntToString(7) == "7";
    assert "Too Many Requests: retry after 7" == "Too Many Requests: retry after" + " " + IntToString(7);
    TimeoutOfTrailingInteger("Too Many Requests: retry after", 7);
  }

  /** A description whose last word is not an integer gives -1. */
  lemma NoTimeoutExample()
    ensures GetTimeoutFromText("Too Many Requests") == -1
  {
    assert "Too Many Requests" == "Too Many " + "Requests";
    StripSpaceEnded("Too Many ", "Requests");
    TimeoutOfTail("Too Many Requests", "Requests");
    NotAnInteger("Requests");
  }

  lemma NotAnInteger(s: string)
    requires s != [] && !IsSpace(s[0]) && !IsSpace(s[|s| - 1])
    requires !IsDigit(s[0]) && s[0] != '-' && s[0] != '+'
    ensures ParseInt(s) == None
  {
    IntStripUnchanged(s);
  }

  // ---------------------------------------------------------------------------
  // encode_message_id, decode_message_id

  /** The first id followed by every later id's offset from it. */
  function Offsets(ids: seq<int>): (r: seq<int>)
    requires |ids| > 0
    ensures |r| == |ids| && r[0] == ids[0]
  {
    seq(|ids|, i requires 0 <= i < |ids| => if i == 0 then ids[0] else ids[i] - ids[0])
  }

  /** `[str(x) for x in xs]` */
  function ToStrings(xs: seq<int>): (r: seq<string>)
    ensures |r| == |xs|
    ensures forall k :: 0 <= k < |xs| ==> r[k] == IntToString(xs[k])
  {
    if xs == [] then [] else ToStrings(xs[..|xs| - 1]) + [IntToString(xs[|xs| - 1])]
  }

  /** What `encode_message_id` returns; the assertion on an empty list becomes `Err`. */
  function EncodeMessageIds(ids: seq<int>): (r: Result<string>)
    ensures r.Err? <==> ids == []
    ensures r.Ok? ==> Split(r.value, ',') == ToStrings(Offsets(ids))
  {
    if ids == [] then Err("message ids cannot be empty")
    else
      var fields := ToStrings(Offsets(ids));
      forall k | 0 <= k < |fields|
        ensures ',' !in fields[k]
      {
        IntToStringHasNo(Offsets(ids)[k], ',');
      }
      SplitJoin(fields, ',');
      Ok(Join(fields, ','))
  }

  method EncodeMessageId(messageIds: seq<int>) returns (r: Result<string>)
    ensures r == EncodeMessageIds(messageIds)
  {
    if |messageIds| == 0 {
      return Err("message ids cannot be empty");
    }
    ghost var fields := ToStrings(Offsets(messageIds));
    var firstId := messageIds[0];
    var encoded := IntToString(firstId);
    for i := 1 to |messageIds|
      invariant encoded == Join(fields[..i], ',')
    {
      var offset := messageIds[i] - firstId;
      JoinAppend(fields[..i], ',', fields[i]);
      assert fields[..i + 1] == fields[..i] + [fields[i]];
      encoded := encoded + "," + IntToString(offset);
    }
    assert fields[..|messageIds|] == fields;
    r := Ok(encoded);
  }

  /** `[int(f) for f in fields]`; None when some `int()` raises. */
  function ParseAll(fields: seq<string>): (r: Option<seq<int>>)
    ensures r.Some? ==> |r.value| == |fields|
  {
    if fields == [] then Some([])
    else
      match (ParseAll(fields[..|fields| - 1]), ParseInt(fields[|fields| - 1]))
      case (Some(vs), Some(v)) => Some(vs + [v])
      case _ => None
  }

  /** The ids from the parsed fields: the first, then every offset added to it. */
  function Rebase(vs: seq<int>): (r: seq<int>)
    ensures |r| == |vs|
    ensures vs != [] ==> r[0] == vs[0]
    ensures forall k :: 0 < k < |vs| ==> r[k] == vs[k] + vs[0]
  {
    seq(|vs|, k requires 0 <= k < |vs| => if k == 0 then vs[0] else vs[k] + vs[0])
  }

  /** What `decode_message_id` returns; None when some field is not an integer. */
  function DecodeMessageIds(s: string): Option<seq<int>> {
    match ParseAll(Split(s, ','))
    case None => None
    case Some(vs) => Some(Rebase(vs))
  }

  method DecodeMessageId(msgIdStr: string) returns (r: Option<seq<int>>)
    ensures r == DecodeMessageIds(msgIdStr)
  {
    var ids := Split(msgIdStr, ',');
    var first := ParseInt(ids[0]);
    if first.None? {
      assert DecodeMessageIds(msgIdStr) == None by {
        ParseAllNoneAt(ids, 0);
      }
      return None;
    }
    var messageId := first.value;
    var realMessageIds := [messageId];
    ghost var parsed := [messageId];
    assert ParseAll(ids[..1]) == Some(parsed) by {
      assert ids[..1][..0] == [];
      assert [] + [messageId] == parsed;
    }
    for i := 1 to |ids|
      invariant |parsed| == i && parsed[0] == messageId
      invariant ParseAll(ids[..i]) == Some(parsed)
      invariant realMessageIds == Rebase(parsed)
    {
      var v := ParseInt(ids[i]);
      if v.None? {
        assert DecodeMessageIds(msgIdStr) == None by {
          ParseAllNoneAt(ids, i);
        }
        return None;
      }
      ParseAllSnoc(ids, i, parsed, v.value);
      RebaseSnoc(parsed, v.value);
      parsed := parsed + [v.value];
      realMessageIds := realMessageIds + [v.value + messageId];
    }
    assert ids[..|ids|] == ids;
    r := Some(realMessageIds);
  }

  lemma ParseAllSnoc(fields: seq<string>, i: nat, parsed: seq<int>, v: int)
    requires i < |fields| && ParseAll(fields[..i]) == Some(parsed) && ParseInt(fields[i]) == Some(v)
    ensures ParseAll(fields[..i + 1]) == Some(parsed + [v])
  {
    assert fields[..i + 1][..i] == fields[..i];
  }

  lemma RebaseSnoc(vs: seq<int>, v: int)
    requires vs != []
    ensures Rebase(vs + [v]) == Rebase(vs) + [v + vs[0]]
  {
    var a, b := Rebase(vs + [v]), Rebase(vs) + [v + vs[0]];
    forall k | 0 <= k < |a|
      ensures a[k] == b[k]
    {
      if k < |vs| {
        assert (vs + [v])[k] == vs[k];
      }
    }
  }

  lemma {:induction false} ParseAllNoneAt(fields: seq<string>, i: nat)
    requires i < |fields| && ParseInt(fields[i]).None?
    ensures ParseAll(fields) == None
  {
    if i < |fields| - 1 {
      var init := fields[..|fields| - 1];
      assert init[i] == fields[i];
      ParseAllNoneAt(init, i);
    }
  }

  lemma {:induction false} ParseAllToStrings(xs: seq<int>)
    ensures ParseAll(ToStrings(xs)) == Some(xs)
  {
    if xs != [] {
      var n := |xs| - 1;
      var init, last := xs[..n], xs[n];
      assert xs == init + [last];
      ParseIntOfIntToString(last);
      ParseAllToStrings(init);
      ToStringsSnoc(init, last);
      ParseAllSnoc(ToStrings(xs), n, init, last);
      assert ToStrings(xs)[..n + 1] == ToStrings(xs);
    }
  }

  lemma ToStringsSnoc(xs: seq<int>, x: int)
    ensures ToStrings(xs + [x]) == ToStrings(xs) + [IntToString(x)]
  {
    assert (xs + [x])[..|xs|] == xs;
  }

  /** Adding the first id back to every offset recovers the ids. */
  lemma RebaseOffsets(ids: seq<int>)
    requires ids != []
    ensures Rebase(Offsets(ids)) == ids
  {
    var o := Offsets(ids);
    var r := Rebase(o);
    forall k | 0 <= k < |ids|
      ensures r[k] == ids[k]
    {
      if k > 0 {
        assert r[k] == o[k] + o[0];
        assert o[k] == ids[k] - ids[0];
      }
    }
  }

  /** `decode_message_id(encode_message_id(ids)) == ids` for every non-empty list. */
  lemma MessageIdRoundTrip(ids: seq<int>)
    requires ids != []
    ensures DecodeMessageIds(EncodeMessageIds(ids).value) == Some(ids)
  {
    var offsets := Offsets(ids);
    var encoded := EncodeMessageIds(ids).value;
    assert ParseAll(Split(encoded, ',')) == Some(offsets) by {
      assert Split(encoded, ',') == ToStrings(offsets);
      ParseAllToStrings(offsets);
    }
    RebaseOffsets(ids);
  }
}
