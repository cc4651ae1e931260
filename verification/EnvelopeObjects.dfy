/** Which texts the outer parser accepts: an independent description, with white space wherever JSON has it. */
module EnvelopeObjects {
  import opened Bytes
  import opened Envelope

  predicate Blank(w: seq<byte>) {
    forall i :: 0 <= i < |w| ==> Space(w[i])
  }

  /** A JSON number without sign, fraction or leading zero. */
  predicate Unsigned(v: seq<byte>) {
    |v| > 0 && (forall i :: 0 <= i < |v| ==> Digit(v[i])) && (|v| > 1 ==> v[0] != 48)
  }

  predicate Acceptable(field: nat, value: seq<byte>) {
    if Numeric(field) then Unsigned(value) else forall i :: 0 <= i < |value| ==> Simple(value[i])
  }

  /** A member with the white space before its colon, before and behind its value, and behind its separator. */
  datatype Item = Item(field: nat, value: seq<byte>, colon: seq<byte>, lead: seq<byte>, tail: seq<byte>, gap: seq<byte>)

  predicate ItemOk(x: Item) {
    x.field < FIELDS && Acceptable(x.field, x.value) && Blank(x.colon) && Blank(x.lead) && Blank(x.tail) && Blank(x.gap)
  }

  function KeyText(x: Item): seq<byte> {
    [QUOTE] + Name(x.field) + [QUOTE]
  }

  /** A member from the end of its key up to and with its separator. */
  function RestText(x: Item, separator: byte): seq<byte> {
    x.colon + ([COLON] + (x.lead + (Value(x.field, x.value) + (x.tail + [separator]))))
  }

  function ItemText(x: Item, separator: byte): seq<byte> {
    KeyText(x) + RestText(x, separator) + x.gap
  }

  function ItemsText(items: seq<Item>, last: byte): seq<byte>
    requires items != []
  {
    if |items| == 1 then ItemText(items[0], last) else ItemText(items[0], COMMA) + ItemsText(items[1..], last)
  }

  /** A whole text: white space, a brace, white space, members, and the octet that stands where the closing brace should. */
  datatype Object = Object(lead: seq<byte>, gap: seq<byte>, items: seq<Item>, last: byte)

  function Spelling(o: Object): seq<byte>
    requires o.items != []
  {
    o.lead + ([OPEN] + (o.gap + ItemsText(o.items, o.last)))
  }

  function Gathered(items: seq<Item>, members: Members): Members {
    if items == [] then members else Gathered(items[1..], members[items[0].field := items[0].value])
  }

  predicate ItemsOk(items: seq<Item>, members: Members) {
    items == [] || (ItemOk(items[0]) && items[0].field !in members
                    && ItemsOk(items[1..], members[items[0].field := items[0].value]))
  }

  /** Distinct members that make up all eight fields, ended by a brace or by a comma. */
  predicate ObjectOk(o: Object) {
    && Blank(o.lead) && Blank(o.gap) && o.items != [] && ItemsOk(o.items, map[]) && Complete(Gathered(o.items, map[]))
    && (o.last == CLOSE || o.last == COMMA)
  }

  // ----- reading what was written -----

  lemma {:induction false} SkipsTo(t: seq<byte>, i: nat, j: nat)
    requires i <= j <= |t| && (forall k :: i <= k < j ==> Space(t[k])) && (j < |t| ==> !Space(t[j]))
    ensures Skip(t, i) == j
    decreases j - i
  {
    if i < j { SkipsTo(t, i + 1, j); }
  }

  lemma {:induction false} DigitsTo(t: seq<byte>, i: nat, j: nat)
    requires i <= j < |t| && (forall k :: i <= k < j ==> Digit(t[k])) && !Digit(t[j])
    ensures DigitsEnd(t, i) == j
    decreases j - i
  {
    if i < j { DigitsTo(t, i + 1, j); }
  }

  /** White space in front of a visible text. */
  lemma SkipBlank(t: seq<byte>, i: nat, w: seq<byte>, rest: seq<byte>)
    requires Blank(w) && StartsAt(t, i, w + rest) && rest != [] && !Space(rest[0])
    ensures i <= |t| && Skip(t, i) == i + |w| && StartsAt(t, i + |w|, rest) && i + |w| < |t| && t[i + |w|] == rest[0]
  {
    StartsSplit(t, i, w, rest);
    StartsWith(t, i + |w|, rest);
    forall k | i <= k < i + |w| ensures Space(t[k]) { assert t[k] == t[i..i + |w|][k - i]; }
    SkipsTo(t, i, i + |w|);
  }

  /** A value in front of something that ends it. */
  lemma ReadsValue(t: seq<byte>, i: nat, field: nat, value: seq<byte>, rest: seq<byte>)
    requires Acceptable(field, value) && StartsAt(t, i, Value(field, value) + rest) && rest != [] && !Digit(rest[0])
    ensures i < |t|
    ensures (if Numeric(field) then UnsignedToken(t, i) else SimpleString(t, i)) == Some(Piece(value, i + |Value(field, value)|))
  {
    hide UnsignedToken, SimpleString;
    var text := Value(field, value);
    StartsSplit(t, i, text, rest);
    StartsWith(t, i + |text|, rest);
    ShowStarts(t, i, text);
    if Numeric(field) {
      ReadsNumber(t, i, value);
    } else {
      SimpleBack(t, i, value);
    }
  }

  lemma ReadsNumber(t: seq<byte>, i: nat, value: seq<byte>)
    requires Unsigned(value) && i + |value| < |t| && t[i..i + |value|] == value && !Digit(t[i + |value|])
    ensures UnsignedToken(t, i) == Some(Piece(value, i + |value|))
  {
    forall k | i <= k < i + |value| ensures t[k] == value[k - i] { assert t[k] == t[i..i + |value|][k - i]; }
    DigitsTo(t, i, i + |value|);
  }

  /** From the end of a value to the octet behind the separator. */
  lemma ReadsEnd(t: seq<byte>, i: nat, tail: seq<byte>, separator: byte, members: Members)
    requires Blank(tail) && (separator == CLOSE || separator == COMMA) && StartsAt(t, i, tail + [separator])
    ensures var n := i + |tail| + 1;
      && n <= |t| && i <= |t|
      && AfterValue(t, i, members) == if separator == CLOSE then End(n, members) else More(Skip(t, n), members)
  {
    hide Skip, StartsAt, Blank;
    SkipBlank(t, i, tail, [separator]);
  }

  /** From the end of a key to its value. */
  lemma ReadsColon(t: seq<byte>, i: nat, colon: seq<byte>, lead: seq<byte>, rest: seq<byte>)
    requires Blank(colon) && Blank(lead) && rest != [] && !Space(rest[0]) && StartsAt(t, i, colon + ([COLON] + (lead + rest)))
    ensures var k := i + |colon|; var v := k + 1 + |lead|;
      i <= |t| && k < |t| && v <= |t| && Skip(t, i) == k && t[k] == COLON && Skip(t, k + 1) == v && StartsAt(t, v, rest)
  {
    hide Skip, StartsAt, Blank;
    SkipBlank(t, i, colon, [COLON] + (lead + rest));
    StartsSplit(t, i + |colon|, [COLON], lead + rest);
    SkipBlank(t, i + |colon| + 1, lead, rest);
  }

  /** From the end of a key to the octet behind the separator. */
  lemma ReadsRest(t: seq<byte>, i: nat, x: Item, separator: byte, members: Members)
    requires ItemOk(x) && (separator == CLOSE || separator == COMMA) && StartsAt(t, i, RestText(x, separator))
    ensures var n := i + |RestText(x, separator)|; var more := members[x.field := x.value];
      && n <= |t| && i <= |t|
      && AfterKey(t, i, x.field, members) == if separator == CLOSE then End(n, more) else More(Skip(t, n), more)
  {
    hide Skip, StartsAt, Blank, Acceptable, Value, UnsignedToken, SimpleString, AfterValue, Space, Digit;
    var text := Value(x.field, x.value);
    var end := x.tail + [separator];
    ValueShape(x);
    assert (text + end)[0] == text[0];
    ReadsColon(t, i, x.colon, x.lead, text + end);
    var v := i + |x.colon| + 1 + |x.lead|;
    ReadsValue(t, v, x.field, x.value, end);
    StartsSplit(t, v, text, end);
    ReadsEnd(t, v + |text|, x.tail, separator, members[x.field := x.value]);
  }

  lemma ValueShape(x: Item)
    requires ItemOk(x)
    ensures Value(x.field, x.value) != [] && !Space(Value(x.field, x.value)[0])
    ensures forall separator: byte :: separator == CLOSE || separator == COMMA ==>
      x.tail + [separator] != [] && !Digit((x.tail + [separator])[0])
  {
    if x.tail != [] { assert Space(x.tail[0]); }
  }

  /** One member of the loop. */
  lemma ReadsItem(t: seq<byte>, i: nat, x: Item, separator: byte, members: Members)
    requires ItemOk(x) && x.field !in members && (separator == CLOSE || separator == COMMA)
    requires StartsAt(t, i, KeyText(x) + RestText(x, separator))
    ensures var n := i + |KeyText(x) + RestText(x, separator)|; var more := members[x.field := x.value];
      && n <= |t| && i < |t|
      && Member(t, i, members) == if separator == CLOSE then End(n, more) else More(Skip(t, n), more)
  {
    hide Name, FieldIndex, AfterKey, RestText, SimpleString, StartsAt, Simple, Skip;
    NamesAreSimple(x.field);
    IndexOfName(x.field);
    StartsSplit(t, i, KeyText(x), RestText(x, separator));
    ShowStarts(t, i, KeyText(x));
    StartsWith(t, i, KeyText(x));
    SimpleBack(t, i, Name(x.field));
    ReadsRest(t, i + |KeyText(x)|, x, separator, members);
  }

  lemma TailAt(t: seq<byte>, i: nat, a: seq<byte>, b: seq<byte>)
    requires i <= |t| && t[i..] == a + b
    ensures StartsAt(t, i, a) && i + |a| <= |t| && t[i + |a|..] == b
  {
    assert t[i..i + |a|] == t[i..][..|a|];
    assert t[i + |a|..] == t[i..][|a|..];
  }

  lemma ItemsStart(items: seq<Item>, last: byte)
    requires items != []
    ensures ItemsText(items, last) != [] && ItemsText(items, last)[0] == QUOTE
  {
    hide Name, RestText;
  }

  /** The last member. */
  lemma ReadsLast(t: seq<byte>, i: nat, x: Item, last: byte, members: Members)
    requires ItemOk(x) && x.field !in members && (last == CLOSE || last == COMMA)
    requires i <= |t| && t[i..] == (KeyText(x) + RestText(x, last)) + x.gap
    ensures Loop(t, i, members) == Finish(t, |t|, members[x.field := x.value])
  {
    hide Finish, KeyText, RestText, ItemOk, StartsAt, Skip, Loop, Member;
    var body := KeyText(x) + RestText(x, last);
    TailAt(t, i, body, x.gap);
    ReadsItem(t, i, x, last, members);
    OnlyGap(t, i + |body|, x);
    LastTurn(t, i, i + |body|, last, members, members[x.field := x.value]);
  }

  /** A member in front of others. */
  lemma ReadsFirst(t: seq<byte>, i: nat, x: Item, rest: seq<byte>, members: Members)
    requires ItemOk(x) && x.field !in members && rest != [] && rest[0] == QUOTE
    requires i <= |t| && t[i..] == (KeyText(x) + RestText(x, COMMA)) + (x.gap + rest)
    ensures var n := |t| - |rest|;
      i <= n <= |t| && t[n..] == rest && Loop(t, i, members) == Loop(t, n, members[x.field := x.value])
  {
    hide Finish, KeyText, RestText, ItemOk, StartsAt, Skip, Loop, Member;
    var body := KeyText(x) + RestText(x, COMMA);
    TailAt(t, i, body, x.gap + rest);
    ReadsItem(t, i, x, COMMA, members);
    var n := i + |body|;
    GapBefore(t, n, x, rest);
    TailAt(t, n, x.gap, rest);
    NextTurn(t, i, n, members, members[x.field := x.value]);
  }

  /** The loop over all members, to the end of the text. */
  lemma {:induction false} ReadsItems(t: seq<byte>, i: nat, items: seq<Item>, last: byte, members: Members)
    requires items != [] && ItemsOk(items, members) && (last == CLOSE || last == COMMA)
    requires i <= |t| && t[i..] == ItemsText(items, last)
    ensures Loop(t, i, members) == Finish(t, |t|, Gathered(items, members))
    decreases |items|
  {
    hide Finish, ItemText, ItemsText, KeyText, RestText, ItemOk, StartsAt, Skip, Loop, Member;
    var x := items[0];
    var more := members[x.field := x.value];
    FirstItem(items, last);
    if |items| == 1 {
      assert x.gap + [] == x.gap;
      assert Gathered(items[1..], more) == more;
      ReadsLast(t, i, x, last, members);
    } else {
      var rest := ItemsText(items[1..], last);
      ItemsStart(items[1..], last);
      ReadsFirst(t, i, x, rest, members);
      ReadsItems(t, |t| - |rest|, items[1..], last, more);
    }
  }

  lemma FirstItem(items: seq<Item>, last: byte)
    requires items != []
    ensures var x, separator := items[0], if |items| == 1 then last else COMMA;
      ItemsText(items, last)
        == (KeyText(x) + RestText(x, separator)) + (x.gap + if |items| == 1 then [] else ItemsText(items[1..], last))
  {
    hide KeyText, RestText;
  }

  lemma OnlyGap(t: seq<byte>, n: nat, x: Item)
    requires ItemOk(x) && n <= |t| && t[n..] == x.gap
    ensures Skip(t, n) == |t|
  {
    forall k | n <= k < |t| ensures Space(t[k]) { assert t[k] == t[n..][k - n]; }
    SkipsTo(t, n, |t|);
  }

  lemma GapBefore(t: seq<byte>, n: nat, x: Item, rest: seq<byte>)
    requires ItemOk(x) && n <= |t| && t[n..] == x.gap + rest && rest != [] && rest[0] == QUOTE
    ensures Skip(t, n) == n + |x.gap|
  {
    assert t[n..n + |x.gap + rest|] == x.gap + rest;
    SkipBlank(t, n, x.gap, rest);
  }

  lemma LastTurn(t: seq<byte>, i: nat, n: nat, separator: byte, members: Members, more: Members)
    requires i < |t| && n <= |t| && Skip(t, n) == |t|
    requires Member(t, i, members) == if separator == CLOSE then End(n, more) else More(Skip(t, n), more)
    ensures Loop(t, i, members) == Finish(t, |t|, more)
  {
    hide Member;
    AtTheEnd(t, more);
  }

  lemma NextTurn(t: seq<byte>, i: nat, n: nat, members: Members, more: Members)
    requires i < |t| && n <= |t| && Member(t, i, members) == More(Skip(t, n), more)
    ensures Loop(t, i, members) == Loop(t, Skip(t, n), more)
  {
    hide Member;
  }

  /** Up to the first member. */
  lemma ReadsOpen(t: seq<byte>, lead: seq<byte>, gap: seq<byte>, text: seq<byte>)
    requires Blank(lead) && Blank(gap) && text != [] && text[0] == QUOTE && t == lead + ([OPEN] + (gap + text))
    ensures var n, j := |lead|, |lead| + 1 + |gap|;
      Skip(t, 0) == n < |t| && t[n] == OPEN && Skip(t, n + 1) == j < |t| && t[j] == QUOTE && t[j..] == text
  {
    hide Skip, StartsAt, Blank;
    WholeStarts(t);
    SkipBlank(t, 0, lead, [OPEN] + (gap + text));
    StartsSplit(t, |lead|, [OPEN], gap + text);
    SkipBlank(t, |lead| + 1, gap, text);
    assert t[0..] == t;
    TailAt(t, 0, lead, [OPEN] + (gap + text));
    TailAt(t, |lead|, [OPEN], gap + text);
    TailAt(t, |lead| + 1, gap, text);
  }

  /** Every such text is accepted, with the values its members have. */
  lemma SpelledIsRead(o: Object)
    requires ObjectOk(o)
    ensures ParseObject(Spelling(o)) == Ok(Gathered(o.items, map[]))
  {
    hide Loop, ItemsText, ItemsOk, Blank, Skip, Complete, Gathered;
    var t := Spelling(o);
    ItemsStart(o.items, o.last);
    ReadsOpen(t, o.lead, o.gap, ItemsText(o.items, o.last));
    ReadsItems(t, |o.lead| + 1 + |o.gap|, o.items, o.last, map[]);
    AtTheEnd(t, Gathered(o.items, map[]));
  }

  lemma WholeStarts(t: seq<byte>)
    ensures StartsAt(t, 0, t)
  {
    assert t[0..|t|] == t;
  }

  // ----- only what was written is read -----

  lemma BlankBetween(t: seq<byte>, i: nat)
    requires i <= |t|
    ensures Blank(t[i..Skip(t, i)])
  {
  }

  /** What an accepted value looks like in the text. */
  lemma ValueSpelled(t: seq<byte>, i: nat, field: nat)
    requires i <= |t|
    ensures var p := if Numeric(field) then UnsignedToken(t, i) else SimpleString(t, i);
      p.Some? ==> Acceptable(field, p.value.text) && t[i..p.value.next] == Value(field, p.value.text)
  {
    if !Numeric(field) && i < |t| && t[i] == QUOTE {
      var j := SimpleEnd(t, i + 1);
      if j < |t| { assert t[i..j + 1] == [t[i]] + t[i + 1..j] + [t[j]]; }
    }
  }

  lemma Slices(t: seq<byte>, a: nat, b: nat, c: nat)
    requires a <= b <= c <= |t|
    ensures t[a..c] == t[a..b] + t[b..c]
  {
  }

  /** From the end of a value to the separator. */
  lemma EndSpelled(t: seq<byte>, i: nat, members: Members)
    requires i <= |t| && !AfterValue(t, i, members).Stop?
    ensures var r, e := AfterValue(t, i, members), Skip(t, i); var separator := if r.End? then CLOSE else COMMA;
      && e < |t| && Blank(t[i..e]) && t[e] == separator && r.members == members && r.next == if r.End? then e + 1 else Skip(t, e + 1)
  {
    BlankBetween(t, i);
  }

  /** The pieces between the stops of the parser. */
  lemma Pieces(t: seq<byte>, i: nat, k: nat, v: nat, p: nat, e: nat)
    requires i <= k < v <= p <= e < |t|
    ensures t[i..e + 1] == t[i..k] + ([t[k]] + (t[k + 1..v] + (t[v..p] + (t[p..e] + [t[e]]))))
  {
    Slices(t, p, e, e + 1);
    Slices(t, v, p, e + 1);
    Slices(t, k + 1, v, e + 1);
    Slices(t, k, k + 1, e + 1);
    Slices(t, i, k, e + 1);
  }

  /** From the end of a key to the separator. */
  lemma RestSpelled(t: seq<byte>, i: nat, field: nat, members: Members) returns (x: Item)
    requires i <= |t| && field < FIELDS && !AfterKey(t, i, field, members).Stop?
    ensures var r := AfterKey(t, i, field, members);
      && ItemOk(x) && x.field == field && x.gap == [] && r.members == members[field := x.value]
      && var separator := if r.End? then CLOSE else COMMA; var n := i + |RestText(x, separator)|;
         n <= |t| && t[i..n] == RestText(x, separator) && r.next == if r.End? then n else Skip(t, n)
  {
    hide Skip, UnsignedToken, SimpleString, Value, Acceptable, AfterValue, Blank;
    var k := Skip(t, i);
    var v := Skip(t, k + 1);
    var p := (if Numeric(field) then UnsignedToken(t, v) else SimpleString(t, v)).value;
    var e := Skip(t, p.next);
    EndSpelled(t, p.next, members[field := p.text]);
    x := Item(field, p.text, t[i..k], t[k + 1..v], t[p.next..e], []);
    assert Blank(x.gap) by { NothingIsBlank(); }
    BlankBetween(t, i);
    BlankBetween(t, k + 1);
    ValueSpelled(t, v, field);
    Pieces(t, i, k, v, p.next, e);
    assert |t[i..e + 1]| == e + 1 - i;
  }

  lemma NothingIsBlank()
    ensures Blank([])
  {
  }

  /** A whole member. */
  lemma ItemSpelled(t: seq<byte>, i: nat, members: Members) returns (x: Item)
    requires i < |t| && !Member(t, i, members).Stop?
    ensures var r := Member(t, i, members);
      && ItemOk(x) && x.gap == [] && x.field !in members && r.members == members[x.field := x.value]
      && var separator := if r.End? then CLOSE else COMMA; var n := i + |KeyText(x) + RestText(x, separator)|;
         n <= |t| && t[i..n] == KeyText(x) + RestText(x, separator) && r.next == if r.End? then n else Skip(t, n)
  {
    hide Skip, AfterKey, RestText, FieldIndex, Name;
    var key := SimpleString(t, i).value;
    var field := FieldIndex(key.text, 0);
    x := RestSpelled(t, key.next, field, members);
    var separator := if Member(t, i, members).End? then CLOSE else COMMA;
    assert t[i..key.next] == KeyText(x) by { QuotedSlice(t, i); }
    Slices(t, i, key.next, key.next + |RestText(x, separator)|);
  }

  lemma QuotedSlice(t: seq<byte>, i: nat)
    requires SimpleString(t, i).Some?
    ensures var p := SimpleString(t, i).value; t[i..p.next] == [QUOTE] + p.text + [QUOTE]
  {
    var j := SimpleEnd(t, i + 1);
    assert t[i..j + 1] == [t[i]] + t[i + 1..j] + [t[j]];
  }

  /** All members, from `i` to the end of an accepted text. */
  lemma {:induction false} ItemsSpelled(t: seq<byte>, i: nat, members: Members) returns (items: seq<Item>, last: byte)
    requires i <= |t| && Loop(t, i, members).Ok?
    ensures ItemsOk(items, members) && Loop(t, i, members).value == Gathered(items, members)
    ensures (items == [] <==> i == |t|) && (last == CLOSE || last == COMMA)
    ensures items != [] ==> t[i..] == ItemsText(items, last)
    decreases |t| - i
  {
    hide Member, KeyText, RestText, ItemOk, Skip;
    if i == |t| { return [], COMMA; }
    var x := ItemSpelled(t, i, members);
    match Member(t, i, members)
    case End(next, more) =>
      items, last := [x.(gap := t[next..])], CLOSE;
      EndGap(t, next, x);
      SameTexts(x, items[0], CLOSE);
      Rejoined(t, i, next, |t|);
      assert ItemsOk(items[1..], more) && Gathered(items[1..], more) == more;
    case More(next, more) =>
      var n := i + |KeyText(x) + RestText(x, COMMA)|;
      var y := x.(gap := t[n..next]);
      BlankBetween(t, n);
      SkipForward(t, n);
      WithGap(x, t[n..next]);
      SameTexts(x, y, COMMA);
      var rest, end := ItemsSpelled(t, next, more);
      items, last := [y] + rest, if rest == [] then COMMA else end;
      assert items[1..] == rest;
      Rejoined(t, i, n, next);
  }

  lemma Rejoined(t: seq<byte>, i: nat, n: nat, next: nat)
    requires i <= n <= next <= |t|
    ensures t[i..] == t[i..n] + t[n..next] + t[next..] && (next == |t| ==> t[next..] == [] && t[n..next] == t[n..])
  {
  }

  lemma SkipForward(t: seq<byte>, n: nat)
    requires n <= |t|
    ensures n <= Skip(t, n) <= |t|
  {
  }

  lemma SameTexts(x: Item, y: Item, separator: byte)
    requires y == x.(gap := y.gap)
    ensures ItemText(y, separator) == KeyText(x) + RestText(x, separator) + y.gap
  {
  }

  lemma WithGap(x: Item, gap: seq<byte>)
    requires ItemOk(x) && Blank(gap)
    ensures ItemOk(x.(gap := gap))
  {
  }

  lemma EndGap(t: seq<byte>, next: nat, x: Item)
    requires next <= |t| && Skip(t, next) == |t| && ItemOk(x)
    ensures ItemOk(x.(gap := t[next..]))
  {
    assert t[next..] == t[next..|t|];
    BlankBetween(t, next);
  }

  /** Every accepted text is such an object. */
  lemma ReadIsSpelled(t: seq<byte>) returns (o: Object)
    requires ParseObject(t).Ok?
    ensures ObjectOk(o) && t == Spelling(o)
  {
    hide Loop, ItemsText, ItemsOk, Skip, Complete;
    var i := Skip(t, 0);
    var j := Skip(t, i + 1);
    SkipForward(t, 0);
    SkipForward(t, i + 1);
    var items, last := ItemsSpelled(t, j, map[]);
    if j == |t| { EmptyIsMissing(t); }
    o := Object(t[..i], t[i + 1..j], items, last);
    BlankBetween(t, 0);
    BlankBetween(t, i + 1);
    assert t[0..i] == t[..i];
    assert t == t[..i] + [t[i]] + t[i + 1..j] + t[j..];
  }

  lemma EmptyIsMissing(t: seq<byte>)
    ensures !Loop(t, |t|, map[]).Ok?
  {
    var none: Members := map[];
    assert VERSION !in none;
  }

  /** Soundness and completeness: a text is accepted exactly when it is an optionally spaced list of distinct members that
      make up all eight fields, ended by a brace or by a comma; and the members are what is returned. */
  lemma ObjectsExactly(t: seq<byte>)
    ensures ParseObject(t).Ok? <==> exists o :: ObjectOk(o) && Spelling(o) == t
    ensures forall o :: ObjectOk(o) && Spelling(o) == t ==> ParseObject(t) == Ok(Gathered(o.items, map[]))
  {
    hide ParseObject, Spelling, ItemsOk, Blank, Complete, Gathered;
    forall o | ObjectOk(o) && Spelling(o) == t ensures ParseObject(t) == Ok(Gathered(o.items, map[])) { SpelledIsRead(o); }
    if ParseObject(t).Ok? { var o := ReadIsSpelled(t); }
  }

  // ----- closed objects -----

  /** The last octet that is not white space, 0 if there is none. */
  function LastVisible(t: seq<byte>): byte {
    if t == [] then 0 else if Space(t[|t| - 1]) then LastVisible(t[..|t| - 1]) else t[|t| - 1]
  }

  lemma {:induction false} BlankHidden(t: seq<byte>, c: byte, w: seq<byte>)
    requires Blank(w) && !Space(c)
    ensures LastVisible(t + [c] + w) == c
    decreases |w|
  {
    if w != [] {
      var front := w[..|w| - 1];
      BlankHidden(t, c, front);
      assert (t + [c] + w)[..|t + [c] + w| - 1] == t + [c] + front;
      assert (t + [c] + w)[|t + [c] + w| - 1] == w[|w| - 1];
    } else {
      assert t + [c] + w == t + [c];
    }
  }

  lemma {:induction false} ItemsEnd(before: seq<byte>, items: seq<Item>, last: byte, members: Members)
    requires items != [] && ItemsOk(items, members) && (last == CLOSE || last == COMMA)
    ensures LastVisible(before + ItemsText(items, last)) == last
    decreases |items|
  {
    hide LastVisible;
    var x := items[0];
    if |items| == 1 {
      var front := KeyText(x) + (x.colon + ([COLON] + (x.lead + (Value(x.field, x.value) + x.tail))));
      assert RestText(x, last) == x.colon + ([COLON] + (x.lead + (Value(x.field, x.value) + x.tail))) + [last];
      assert before + ItemsText(items, last) == (before + front) + [last] + x.gap;
      BlankHidden(before + front, last, x.gap);
    } else {
      assert before + ItemsText(items, last) == (before + ItemText(x, COMMA)) + ItemsText(items[1..], last);
      ItemsEnd(before + ItemText(x, COMMA), items[1..], last, members[x.field := x.value]);
    }
  }

  /** An accepted text is a closed object exactly when its last visible octet is the brace; otherwise that octet is a comma. */
  lemma ClosedExactly(t: seq<byte>)
    requires ParseObject(t).Ok?
    ensures LastVisible(t) == CLOSE || LastVisible(t) == COMMA
    ensures LastVisible(t) == CLOSE <==> exists o :: ObjectOk(o) && o.last == CLOSE && Spelling(o) == t
  {
    hide ParseObject, ItemsText, ItemsOk, LastVisible;
    forall o | ObjectOk(o) && Spelling(o) == t ensures LastVisible(t) == o.last {
      assert t == (o.lead + [OPEN] + o.gap) + ItemsText(o.items, o.last);
      ItemsEnd(o.lead + [OPEN] + o.gap, o.items, o.last, map[]);
    }
    var o := ReadIsSpelled(t);
  }
}
