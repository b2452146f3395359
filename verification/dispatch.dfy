/** Sending one new entry (rssreader.py:90-105): shorten an overlong link,
    fill the three-field message template, and send the text to every
    configured channel in list order. */
module Dispatch {
  import opened Entries
  import opened Seqs
  import opened Config

  /** One outbound message: the channel it goes to and its text. */
  datatype Outgoing = Outgoing(channel: string, text: string)

  /** Does fmt start with the replacement field {k} for k in 0..2? */
  predicate StartsWithField(fmt: string)
  {
    |fmt| >= 3 && fmt[0] == '{' && fmt[2] == '}' && '0' <= fmt[1] <= '2'
  }

  /** The positional argument a replacement field names. */
  function FieldValue(digit: char, a: string, b: string, c: string): string
  {
    if digit == '0' then a else if digit == '1' then b else c
  }

  /** The message template filled with three positional arguments: each
      field {0}, {1}, {2} becomes the corresponding argument and every other
      character is copied. */
  function Format(fmt: string, a: string, b: string, c: string): string
    decreases |fmt|
  {
    if fmt == [] then []
    else if StartsWithField(fmt) then FieldValue(fmt[1], a, b, c) + Format(fmt[3..], a, b, c)
    else [fmt[0]] + Format(fmt[1..], a, b, c)
  }

  /** A template without braces is sent verbatim. */
  lemma {:induction false} FormatVerbatim(fmt: string, a: string, b: string, c: string)
    requires forall i :: 0 <= i < |fmt| ==> fmt[i] != '{' && fmt[i] != '}'
    ensures Format(fmt, a, b, c) == fmt
    decreases |fmt|
  {
    if fmt != [] {
      assert !StartsWithField(fmt);
      FormatVerbatim(fmt[1..], a, b, c);
    }
  }

  lemma FormatField(k: char, rest: string, a: string, b: string, c: string)
    requires '0' <= k <= '2'
    ensures Format(['{', k, '}'] + rest, a, b, c) == FieldValue(k, a, b, c) + Format(rest, a, b, c)
  {
    assert (['{', k, '}'] + rest)[3..] == rest;
  }

  lemma {:induction false} FormatText(text: string, rest: string, a: string, b: string, c: string)
    requires forall i :: 0 <= i < |text| ==> text[i] != '{'
    ensures Format(text + rest, a, b, c) == text + Format(rest, a, b, c)
    decreases |text|
  {
    if text != [] {
      var s := text + rest;
      assert s[0] == text[0] != '{';
      assert !StartsWithField(s);
      assert s[1..] == text[1..] + rest;
      assert Format(s, a, b, c) == [text[0]] + Format(text[1..] + rest, a, b, c);
      FormatText(text[1..], rest, a, b, c);
      assert [text[0]] + (text[1..] + Format(rest, a, b, c)) == text + Format(rest, a, b, c);
    } else {
      assert text + rest == rest;
    }
  }



  /** The default template gives "feed title > entry title > link". */
  lemma {:induction false} FormatDefault(a: string, b: string, c: string)
    ensures Format(DefaultFormat, a, b, c) == a + " > " + b + " > " + c
  {
    var sep := " > ";
    assert forall i :: 0 <= i < |sep| ==> sep[i] != '{';
    var f2 := ['{', '2', '}'];
    var t1 := sep + f2;
    var f1 := ['{', '1', '}'] + t1;
    var t0 := sep + f1;
    var f0 := ['{', '0', '}'] + t0;
    assert DefaultFormat == f0;
    FormatField('2', [], a, b, c);
    assert f2 + [] == f2;
    assert Format(f2, a, b, c) == c;
    FormatText(sep, f2, a, b, c);
    assert Format(t1, a, b, c) == sep + c;
    FormatField('1', t1, a, b, c);
    assert Format(f1, a, b, c) == b + (sep + c);
    FormatText(sep, f1, a, b, c);
    FormatField('0', t0, a, b, c);
    assert Format(f0, a, b, c) == a + (sep + (b + (sep + c)));
    ConcatFive(a, sep, b, sep, c);
  }

  /** The link as sent: the shortener's result when the link is longer than
      the threshold, the link itself otherwise. */
  function LinkToSend(link: string, maxLinkLength: int, shorten: string -> string): string
  {
    if |link| > maxLinkLength then shorten(link) else link
  }

  /** The message text for one entry of a feed titled feedTitle. */
  function Message(s: Settings, shorten: string -> string, feedTitle: string, e: Entry): string
  {
    Format(s.msgFormat, feedTitle, e.title, LinkToSend(e.link, s.maxLinkLength, shorten))
  }

  /** One copy of text to each channel, in list order. */
  function FanOut(channels: seq<string>, text: string): (out: seq<Outgoing>)
    ensures |out| == |channels|
    ensures forall i :: 0 <= i < |out| ==> out[i].channel == channels[i] && out[i].text == text
    ensures forall c :: c in channels ==> Outgoing(c, text) in out
  {
    if channels == [] then [] else [Outgoing(channels[0], text)] + FanOut(channels[1..], text)
  }

  /** Sending one entry: one message per configured channel, in list order,
      carrying the shortened link exactly when the link is over the
      threshold. */
  function Sender(s: Settings, shorten: string -> string, feedTitle: string, e: Entry): (out: seq<Outgoing>)
    ensures |out| == |s.channels|
    ensures forall i :: 0 <= i < |out| ==> out[i].channel == s.channels[i]
    ensures |e.link| > s.maxLinkLength ==> forall o :: o in out ==>
      o.text == Format(s.msgFormat, feedTitle, e.title, shorten(e.link))
    ensures |e.link| <= s.maxLinkLength ==> forall o :: o in out ==>
      o.text == Format(s.msgFormat, feedTitle, e.title, e.link)
    ensures forall c :: c in s.channels ==> Outgoing(c, Message(s, shorten, feedTitle, e)) in out
  {
    FanOut(s.channels, Message(s, shorten, feedTitle, e))
  }

  /** With the default template, the text is "feed > title > link", the link
      shortened exactly when it is longer than the threshold. */
  lemma DefaultMessage(s: Settings, shorten: string -> string, feedTitle: string, e: Entry)
    requires s.msgFormat == DefaultFormat
    ensures forall o :: o in Sender(s, shorten, feedTitle, e) ==>
      o.text == feedTitle + " > " + e.title + " > "
                + (if |e.link| > s.maxLinkLength then shorten(e.link) else e.link)
  {
    FormatDefault(feedTitle, e.title, LinkToSend(e.link, s.maxLinkLength, shorten));
  }

  /** Sending a sequence of entries, one after the other: every message goes
      to a configured channel and carries the text of one of the entries,
      and every entry's text reaches every configured channel. */
  function SendAll(s: Settings, shorten: string -> string, feedTitle: string, entries: seq<Entry>): (out: seq<Outgoing>)
    ensures |out| == |entries| * |s.channels|
    ensures forall o :: o in out ==> o.channel in s.channels
    ensures forall o :: o in out ==> exists e :: e in entries && o.text == Message(s, shorten, feedTitle, e)
  {
    if entries == [] then []
    else
      var e := entries[|entries| - 1];
      var init := entries[..|entries| - 1];
      var prev := SendAll(s, shorten, feedTitle, init);
      var last := Sender(s, shorten, feedTitle, e);
      assert |prev + last| == (|entries| - 1) * |s.channels| + |s.channels| == |entries| * |s.channels|;
      assert forall o :: o in last ==> o.text == Message(s, shorten, feedTitle, e);
      prev + last
  }

  /** Every entry's text reaches every configured channel. */
  lemma {:induction false} SendAllDelivers(s: Settings, shorten: string -> string, feedTitle: string, entries: seq<Entry>)
    ensures forall e, c :: e in entries && c in s.channels ==>
      Outgoing(c, Message(s, shorten, feedTitle, e)) in SendAll(s, shorten, feedTitle, entries)
  {
    if entries != [] {
      var e := entries[|entries| - 1];
      var init := entries[..|entries| - 1];
      assert entries == init + [e];
      SendAllDelivers(s, shorten, feedTitle, init);
      var out := SendAll(s, shorten, feedTitle, entries);
      assert out == SendAll(s, shorten, feedTitle, init) + Sender(s, shorten, feedTitle, e);
      forall x, c | x in entries && c in s.channels
        ensures Outgoing(c, Message(s, shorten, feedTitle, x)) in out
      {
        if x != e {
          assert x in init;
        }
      }
    }
  }

  /** Sending one entry alone is the sender's output for it. */
  lemma SendAllSingle(s: Settings, shorten: string -> string, feedTitle: string, e: Entry)
    ensures SendAll(s, shorten, feedTitle, [e]) == Sender(s, shorten, feedTitle, e)
  {
    assert [e][..0] == [];
  }

  /** The messages of two runs of entries are those of the first run followed
      by those of the second: entries are announced in the order given. */
  lemma {:induction false} SendAllConcat(s: Settings, shorten: string -> string, feedTitle: string,
                                         xs: seq<Entry>, ys: seq<Entry>)
    ensures SendAll(s, shorten, feedTitle, xs + ys)
         == SendAll(s, shorten, feedTitle, xs) + SendAll(s, shorten, feedTitle, ys)
    decreases |ys|
  {
    if ys == [] {
      assert xs + ys == xs;
    } else {
      var y := ys[|ys| - 1];
      var ys' := ys[..|ys| - 1];
      assert (xs + ys)[..|xs + ys| - 1] == xs + ys';
      assert (xs + ys)[|xs + ys| - 1] == y;
      var whole := SendAll(s, shorten, feedTitle, xs + ys);
      var front := SendAll(s, shorten, feedTitle, xs);
      var middle := SendAll(s, shorten, feedTitle, ys');
      var tail := Sender(s, shorten, feedTitle, y);
      assert whole == SendAll(s, shorten, feedTitle, xs + ys') + tail;
      assert SendAll(s, shorten, feedTitle, ys) == middle + tail;
      ConcatAssoc(front, middle, tail);
      SendAllConcat(s, shorten, feedTitle, xs, ys');
    }
  }
}
