/** Grouping messages by fifteen before they are broadcast, and taking the groups of a log apart again. */
module Batching {
  import opened Text
  import opened Codec

  /** Each message followed by the separator. */
  function Separated(ms: seq<string>): string {
    if ms == [] then "" else Separated(ms[..|ms| - 1]) + ms[|ms| - 1] + "s"
  }

  /** The messages with the separator between them. */
  function Join(ms: seq<string>): string {
    if ms == [] then "" else Separated(ms[..|ms| - 1]) + ms[|ms| - 1]
  }

  function BatchText(ms: seq<string>): string {
    Pad2(|ms|) + Join(ms)
  }

  /** The batches of fifteen messages, the last one holding the rest. */
  function Batches(ms: seq<string>): seq<string>
    decreases |ms|
  {
    if ms == [] then [] else [BatchText(First(ms))] + Batches(Rest(ms))
  }

  lemma BatchExample()
    ensures BatchText(["1", "2", "3"]) == "031s2s3"
  {
    assert ["1", "2", "3"][..2] == ["1", "2"] && ["1", "2"][..1] == ["1"] && ["1"][..0] == [];
    assert Separated(["1"]) == "1s" && Separated(["1", "2"]) == "1s2s";
  }

  function First(ms: seq<string>): seq<string> {
    if |ms| <= 15 then ms else ms[..15]
  }

  function Rest(ms: seq<string>): (r: seq<string>)
    ensures ms != [] ==> |r| < |ms|
  {
    if |ms| <= 15 then [] else ms[15..]
  }

  lemma FirstRest(a: seq<string>, b: seq<string>)
    requires |a| >= 15
    ensures First(a + b) == First(a) && Rest(a + b) == Rest(a) + b
  {
  }

  lemma {:induction false} BatchesAppend(a: seq<string>, b: seq<string>, g: nat)
    requires |a| == 15 * g
    ensures Batches(a + b) == Batches(a) + Batches(b)
    decreases g
  {
    if g == 0 {
      assert a + b == b;
    } else {
      FirstRest(a, b);
      BatchesAppend(Rest(a), b, g - 1);
    }
  }

  /** One more group after g full ones. */
  lemma BatchesStep(finished: seq<string>, g: nat, group: seq<string>)
    requires |finished| == 15 * g && 0 < |group| <= 15
    ensures Batches(finished + group) == Batches(finished) + [Pad2(|group|) + Join(group)]
  {
    BatchesAppend(finished, group, g);
    assert Batches(group) == [BatchText(group)];
  }

  /** One more message in a group. */
  lemma JoinStep(group: seq<string>, m: string)
    ensures Separated(group + [m]) == Separated(group) + m + "s"
    ensures Join(group + [m]) == Separated(group) + m
  {
    assert (group + [m])[..|group|] == group;
  }

  /** Dropping the last separator joins the group. */
  lemma DropSeparator(group: seq<string>)
    requires group != []
    ensures Separated(group) != "" && Separated(group)[..|Separated(group)| - 1] == Join(group)
  {
  }

  lemma PrefixStep(finished: seq<string>, group: seq<string>, ms: seq<string>, j: nat)
    requires j < |ms| && finished + group == ms[..j]
    ensures finished + (group + [ms[j]]) == ms[..j + 1]
  {
    assert finished + (group + [ms[j]]) == (finished + group) + [ms[j]];
  }

  lemma Regroup(head: string, sep: string, m: string)
    ensures head + sep + m == head + (sep + m)
    ensures head + sep + (m + "s") == head + (sep + m + "s")
    ensures sep == "" ==> head + sep == head
  {
  }

  lemma DecimalOfFifteen()
    ensures Decimal(15) == Pad2(15) == "15"
  {
  }

  /** The broadcasts so far hold exactly the finished messages, in g full groups. */
  ghost predicate Sent(sent: seq<string>, finished: seq<string>, g: nat) {
    sent == Batches(finished) && |finished| == 15 * g
  }

  lemma FullGroup(sent: seq<string>, finished: seq<string>, g: nat, group: seq<string>, text: string)
    requires Sent(sent, finished, g) && |group| == 15 && text == Decimal(15) + Join(group)
    ensures Sent(sent + [text], finished + group, g + 1)
  {
    DecimalOfFifteen();
    BatchesStep(finished, g, group);
  }

  lemma LastGroup(sent: seq<string>, finished: seq<string>, g: nat, group: seq<string>, text: string)
    requires Sent(sent, finished, g) && 0 < |group| <= 15 && text == Pad2(|group|) + Join(group)
    ensures sent + [text] == Batches(finished + group)
  {
    BatchesStep(finished, g, group);
  }

  /** The part of the broadcast base class that batches. */
  class Broadcast {
    var messagesToBroadcast: seq<string>
    var concat: bool

    method ConcatMessages()
      modifies this
      ensures messagesToBroadcast == Batches(old(messagesToBroadcast)) && concat
    {
      concat := true;
      var messages := messagesToBroadcast;
      var messagesConcat: seq<string> := [];
      var numConcat := |messages| / 15;
      var remainder := |messages| % 15;
      var groupNum := 0;
      var msgNum := 0;
      var text := Decimal(15);
      // The messages in finished groups of fifteen, and those of the group in progress.
      ghost var finished: seq<string>, group: seq<string> := [], [];
      ghost var full, rest := Decimal(15), Pad2(remainder);
      assert |messages| == 15 * numConcat + remainder;
      for j := 0 to |messages|
        invariant concat
        invariant 0 <= groupNum <= numConcat && |finished| == 15 * groupNum && |group| == msgNum
        invariant finished + group == messages[..j]
        invariant if groupNum < numConcat then msgNum < 15 else msgNum <= remainder
        invariant if groupNum == numConcat && msgNum == remainder then messagesConcat == Batches(messages[..j])
                  else Sent(messagesConcat, finished, groupNum)
        invariant groupNum < numConcat ==> text == full + Separated(group)
        invariant groupNum == numConcat && 0 < msgNum < remainder ==> text == rest + Separated(group)
      {
        var message := messages[j];
        JoinStep(group, message);
        Regroup(if groupNum < numConcat then full else rest, Separated(group), message);
        PrefixStep(finished, group, messages, j);
        group := group + [message];
        if groupNum < numConcat {
          if msgNum == 15 - 1 {
            text := text + message;
          } else {
            text := text + (message + "s");
          }
          msgNum := msgNum + 1;
          if msgNum == 15 {
            FullGroup(messagesConcat, finished, groupNum, group, text);
            groupNum := groupNum + 1;
            msgNum := 0;
            messagesConcat := messagesConcat + [text];
            text := Decimal(15);
            finished, group := finished + group, [];
            assert finished + group == finished;
          }
        } else if groupNum == numConcat && remainder > 0 {
          if msgNum == 0 {
            text := Pad2(remainder);
          }
          if msgNum == remainder - 1 {
            text := text + message;
            assert |group| == remainder && text == rest + Join(group);
            LastGroup(messagesConcat, finished, groupNum, group, text);
            messagesConcat := messagesConcat + [text];
          } else {
            text := text + (message + "s");
          }
          msgNum := msgNum + 1;
        }
      }
      assert messages[..|messages|] == messages;
      messagesToBroadcast := messagesConcat;
    }
  }

  /** The decimal texts of 1..m. */
  function Numbers(m: nat): seq<string> {
    seq(m, i requires 0 <= i < m => Decimal(i + 1))
  }

  /** The loop of `main`: what it hands to the broadcast, in order. */
  method BroadcastNumbers(m: nat) returns (sent: seq<string>)
    ensures sent == Batches(Numbers(m))
  {
    sent := [];
    var text := "";
    var msgNum := 0;
    ghost var ns := Numbers(m);
    ghost var finished: seq<string>, group: seq<string>, groups := [], [], 0;
    for seqNum := 1 to m + 1
      invariant 0 <= msgNum < 15 && |group| == msgNum
      invariant finished + group == ns[..seqNum - 1]
      invariant Sent(sent, finished, groups) && text == Separated(group)
    {
      var number := Decimal(seqNum);
      JoinStep(group, number);
      PrefixStep(finished, group, ns, seqNum - 1);
      group := group + [number];
      if msgNum < 15 {
        text := text + number + "s";
        msgNum := msgNum + 1;
      }
      if msgNum == 15 {
        FullText(sent, finished, groups, group, text);
        sent := sent + [Decimal(msgNum) + text[..|text| - 1]];
        msgNum := 0;
        text := "";
        finished, group, groups := finished + group, [], groups + 1;
        assert finished + group == finished;
      }
    }
    assert ns[..m] == ns;
    LastText(sent, finished, groups, group, text);
    if text != "" {
      sent := sent + [Pad2(msgNum) + text[..|text| - 1]];
    }
  }

  lemma FullText(sent: seq<string>, finished: seq<string>, g: nat, group: seq<string>, text: string)
    requires Sent(sent, finished, g) && |group| == 15 && text == Separated(group)
    ensures text != "" && Sent(sent + [Decimal(15) + text[..|text| - 1]], finished + group, g + 1)
  {
    DropSeparator(group);
    FullGroup(sent, finished, g, group, Decimal(15) + text[..|text| - 1]);
  }

  lemma LastText(sent: seq<string>, finished: seq<string>, g: nat, group: seq<string>, text: string)
    requires Sent(sent, finished, g) && |group| < 15 && text == Separated(group)
    ensures Batches(finished + group) == if text != "" then sent + [Pad2(|group|) + text[..|text| - 1]] else sent
  {
    if group == [] {
      assert finished + group == finished;
    } else {
      DropSeparator(group);
      LastGroup(sent, finished, g, group, Pad2(|group|) + text[..|text| - 1]);
    }
  }
}
