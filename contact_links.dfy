/** The contact links of the home page (js/main.js): the address of the
    email link and the Skype link are assembled at click time from reversed
    fragments and character codes, so that they never appear literally in
    the page. The click handlers themselves only assign the result to
    `window.location`. */
module ContactLinks {
  import opened JsBuiltins

  /** A `mailto:` URI as section 2 of RFC 6068 lays it out: the address,
      then `?` and the header fields as `name=value` joined by `&`. */
  function MailtoUri(to: string, hfields: seq<(string, string)>): string {
    "mailto:" + to + if hfields == [] then "" else "?" + Join(HeaderFields(hfields), "&")
  }

  function HeaderFields(hfields: seq<(string, string)>): seq<string> {
    seq(|hfields|, i requires 0 <= i < |hfields| => hfields[i].0 + "=" + hfields[i].1)
  }

  /** A Skype URI: `skype:`, the account, then `?` and the action. */
  function SkypeUri(account: string, action: string): string {
    "skype:" + account + "?" + action
  }

  /** `obf4(x)`: the one-character string whose code unit is `x`. */
  function Obf4(x: int): (r: string)
    requires IsCharCode(x)
    ensures |r| == 1 && r[0] as int == x % 0x1_0000
  {
    FromCharCode([x])
  }

  /** `codes.map(obf4)`. */
  function MapObf4(codes: seq<int>): seq<string>
    requires forall i :: 0 <= i < |codes| ==> IsCharCode(codes[i])
  {
    seq(|codes|, i requires 0 <= i < |codes| => Obf4(codes[i]))
  }

  /** `codes.map(obf4).join('')` is the string of those codes. */
  lemma {:induction false} JoinMapObf4(codes: seq<int>)
    requires forall i :: 0 <= i < |codes| ==> IsCharCode(codes[i])
    ensures Join(MapObf4(codes), "") == FromCharCode(codes)
  {
    if |codes| == 1 {
      assert MapObf4(codes) == [Obf4(codes[0])];
      assert Obf4(codes[0]) == FromCharCode(codes);
    } else if |codes| > 1 {
      var rest := codes[1..];
      JoinMapObf4(rest);
      assert MapObf4(codes)[1..] == MapObf4(rest);
      assert FromCharCode(codes) == FromCharCode([codes[0]]) + FromCharCode(rest);
    }
  }

  /** The three arrays of codes the script maps through `obf4`. */
  lemma Obf4Words()
    ensures Join(MapObf4([109, 111, 99]), "") == "moc"
    ensures Join(MapObf4([106, 98]), "") == "jb"
    ensures Join(MapObf4([103, 111, 108, 117, 98, 101, 118]), "") == "golubev"
  {
    JoinMapObf4([109, 111, 99]);
    JoinMapObf4([106, 98]);
    JoinMapObf4([103, 111, 108, 117, 98, 101, 118]);
    WordCodes();
  }

  /** The character codes of the three words. */
  lemma WordCodes()
    ensures FromCharCode([109, 111, 99]) == "moc"
    ensures FromCharCode([106, 98]) == "jb"
    ensures FromCharCode([103, 111, 108, 117, 98, 101, 118]) == "golubev"
  {
  }

  /** The single characters the script writes as codes. */
  lemma CharCodes()
    ensures FromCharCode([109]) == "m" && FromCharCode([64]) == "@"
    ensures FromCharCode([115]) == "s" && FromCharCode([63]) == "?"
  {
  }

  /** The array literal of `obf0`, before its loop runs. */
  function Obf0Literals(): seq<string> {
    [Join(MapObf4([109, 111, 99]), ""), "liamg", "bps", "vebulog", "navi"]
  }

  /** The array `obf0` returns. */
  const AddressParts: seq<string> := ["com", "gmail", "spb", "golubev", "ivan"]

  /** Each string of `parts` reversed, as `obf0`'s loop leaves them. */
  function ReverseEach(parts: seq<string>): seq<string> {
    seq(|parts|, i requires 0 <= i < |parts| => Reverse(parts[i]))
  }

  /** Reversing every part twice gives back the parts. */
  lemma {:induction false} ReverseEachInvolution(parts: seq<string>)
    ensures ReverseEach(ReverseEach(parts)) == parts
  {
    forall i | 0 <= i < |parts| ensures ReverseEach(ReverseEach(parts))[i] == parts[i] {
      ReverseInvolution(parts[i]);
    }
  }

  /** Each part of `obf0`'s result is the reversal of its literal, and
      reversing it again gives back the literal. */
  lemma Obf0Reversible()
    ensures ReverseEach(Obf0Literals()) == AddressParts
    ensures ReverseEach(AddressParts) == Obf0Literals()
  {
    Obf4Words();
    ReversedWords();
    assert Obf0Literals() == ["moc", "liamg", "bps", "vebulog", "navi"];
    ReverseEachInvolution(Obf0Literals());
  }

  /** The five literals of `obf0`, reversed. */
  lemma ReversedWords()
    ensures Reverse("moc") == "com" && Reverse("liamg") == "gmail" && Reverse("bps") == "spb"
    ensures Reverse("vebulog") == "golubev" && Reverse("navi") == "ivan"
  {
  }

  /** The loop of `obf0`: `arr[i] = arr[i].split('').reverse().join('')`
      for every index, in place. */
  method ReverseParts(arr: array<string>)
    modifies arr
    ensures arr[..] == ReverseEach(old(arr[..]))
  {
    for i := 0 to arr.Length
      invariant forall k :: 0 <= k < i ==> arr[k] == Reverse(old(arr[k]))
      invariant forall k :: i <= k < arr.Length ==> arr[k] == old(arr[k])
    {
      ReverseStringReverses(arr[i]);
      arr[i] := ReverseString(arr[i]);
    }
  }

  /** `obf0()`: a fresh array holding the reversal of each literal. */
  method Obf0() returns (arr: array<string>)
    ensures fresh(arr)
    ensures arr[..] == ReverseEach(Obf0Literals())
    ensures arr[..] == AddressParts
  {
    arr := new string[] [Join(MapObf4([109, 111, 99]), ""), "liamg", "bps", "vebulog", "navi"];
    assert arr[..] == Obf0Literals();
    ReverseParts(arr);
    Obf0Reversible();
  }

  /** `obf1(arr)`: reverses `arr` in place, joins it with dots, and turns the
      first `.gm` into `@gm` behind the `mailto:` scheme. */
  method Obf1(arr: array<string>) returns (r: string)
    modifies arr
    ensures arr[..] == Reverse(old(arr[..]))
    ensures r == "mailto:" + Replace(Join(arr[..], "."), ".gm", "@gm")
  {
    var cc := ":otlia" + FromCharCode([109]);
    ReverseInPlace(arr);
    var result := Join(arr[..], ".");
    var at := FromCharCode([64]) + "gm";
    MailtoScheme();
    AtSign();
    r := ReverseString(cc) + Replace(result, ".gm", at);
  }

  /** The scheme `obf1` assembles by reversing `":otlia" + "m"`. */
  lemma MailtoScheme()
    ensures ReverseString(":otlia" + FromCharCode([109])) == "mailto:"
  {
    CharCodes();
    SchemeText();
    ReverseStringReverses(":otliam");
  }

  /** A literal fact in a lemma of its own, so that the solver proves it
      apart from the definitions of the proof that uses it. */
  lemma SchemeText()
    ensures ":otlia" + "m" == ":otliam"
    ensures Reverse(":otliam") == "mailto:"
  {
  }

  /** The replacement `obf1` assembles from the code of `@`. */
  lemma AtSign()
    ensures FromCharCode([64]) + "gm" == "@gm"
  {
    CharCodes();
    assert "@" + "gm" == "@gm";
  }

  /** `obf1`'s dotted join of the reversed parts. */
  lemma JoinedAddress()
    ensures Join(Reverse(AddressParts), ".") == "ivan.golubev.spb.gmail.com"
  {
    ReversedAddress();
    DottedAddress();
  }

  /** A literal fact in a lemma of its own, so that the solver proves it
      apart from the definitions of the proof that uses it. */
  lemma ReversedAddress()
    ensures Reverse(AddressParts) == ["ivan", "golubev", "spb", "gmail", "com"]
  {
  }

  /** A literal fact in a lemma of its own, so that the solver proves it
      apart from the definitions of the proof that uses it. */
  lemma DottedAddress()
    ensures Join(["ivan", "golubev", "spb", "gmail", "com"], ".") == "ivan.golubev.spb.gmail.com"
  {
    var p := ["ivan", "golubev", "spb", "gmail", "com"];
    assert p[1..] == ["golubev", "spb", "gmail", "com"];
    DottedTail();
    assert "ivan" + "." + "golubev.spb.gmail.com" == "ivan.golubev.spb.gmail.com";
  }

  /** A literal fact in a lemma of its own, so that the solver proves it
      apart from the definitions of the proof that uses it. */
  lemma DottedTail()
    ensures Join(["golubev", "spb", "gmail", "com"], ".") == "golubev.spb.gmail.com"
  {
    var p := ["golubev", "spb", "gmail", "com"];
    assert p[1..] == ["spb", "gmail", "com"];
    DottedAccountTail();
    assert "golubev" + "." + "spb.gmail.com" == "golubev.spb.gmail.com";
  }

  /** A literal fact in a lemma of its own, so that the solver proves it
      apart from the definitions of the proof that uses it. */
  lemma DottedAccountTail()
    ensures Join(["spb", "gmail", "com"], ".") == "spb.gmail.com"
  {
    var p := ["spb", "gmail", "com"];
    assert p[1..] == ["gmail", "com"];
    assert p[1..][1..] == ["com"];
  }

  /** The first `.gm` of the joined parts is the one before `gmail`. */
  lemma FirstGmAt16()
    ensures OccursAt("ivan.golubev.spb.gmail.com", ".gm", 16)
    ensures forall j :: 0 <= j < 16 ==> !OccursAt("ivan.golubev.spb.gmail.com", ".gm", j)
  {
    var joined := "ivan.golubev.spb.gmail.com";
    forall j | 0 <= j < 16 ensures !OccursAt(joined, ".gm", j) {
      assert joined[j..j + 3][0] == joined[j] && joined[j..j + 3][1] == joined[j + 1] && joined[j..j + 3][2] == joined[j + 2];
      if j == 4 || j == 12 {
        assert joined[j + 2] != 'm';
      } else {
        assert joined[j] != '.';
      }
    }
  }

  /** The address that `obf1` builds from `obf0`'s parts. */
  lemma EmailAddress()
    ensures Replace(Join(Reverse(AddressParts), "."), ".gm", "@gm") == "ivan.golubev.spb@gmail.com"
  {
    JoinedAddress();
    FirstGmAt16();
    var joined := "ivan.golubev.spb.gmail.com";
    assert joined[..16] + "@gm" + joined[19..] == "ivan.golubev.spb@gmail.com";
  }

  /** The word `obf2` reverses: `"tce" + "jb" + "u" + "s"`. */
  lemma SubjectWord()
    ensures ReverseString("tce" + Join(MapObf4([106, 98]), "") + "u" + FromCharCode([115])) == "subject"
  {
    Obf4Words();
    CharCodes();
    SubjectText();
    ReverseStringReverses("tcejbus");
  }

  /** A literal fact in a lemma of its own, so that the solver proves it
      apart from the definitions of the proof that uses it. */
  lemma SubjectText()
    ensures "tce" + "jb" + "u" + "s" == "tcejbus"
    ensures Reverse("tcejbus") == "subject"
  {
  }

  /** A literal fact in a lemma of its own, so that the solver proves it
      apart from the definitions of the proof that uses it. */
  lemma HeaderText()
    ensures "?" + "subject" + "=Hello%20Ivan" == "?subject=Hello%20Ivan"
  {
  }

  /** `obf2()`: the header part `?subject=Hello%20Ivan`. */
  function Obf2(): (r: string)
    ensures r == "?subject=Hello%20Ivan"
  {
    var gg := "tce" + Join(MapObf4([106, 98]), "") + "u" + FromCharCode([115]);
    SubjectWord();
    CharCodes();
    HeaderText();
    FromCharCode([63]) + ReverseString(gg) + "=Hello%20Ivan"
  }

  /** The email link in the layout of RFC 6068. */
  lemma EmailLinkIsMailto()
    ensures MailtoUri("ivan.golubev.spb@gmail.com", [("subject", "Hello%20Ivan")])
         == "mailto:ivan.golubev.spb@gmail.com?subject=Hello%20Ivan"
  {
    var fields := HeaderFields([("subject", "Hello%20Ivan")]);
    assert fields == ["subject" + "=" + "Hello%20Ivan"];
    FieldText();
    LinkText();
  }

  /** A literal fact in a lemma of its own, so that the solver proves it
      apart from the definitions of the proof that uses it. */
  lemma FieldText()
    ensures "subject" + "=" + "Hello%20Ivan" == "subject=Hello%20Ivan"
    ensures "?" + "subject=Hello%20Ivan" == "?subject=Hello%20Ivan"
  {
  }

  /** A literal fact in a lemma of its own, so that the solver proves it
      apart from the definitions of the proof that uses it. */
  lemma LinkText()
    ensures "mailto:" + "ivan.golubev.spb@gmail.com" + "?subject=Hello%20Ivan"
         == "mailto:ivan.golubev.spb@gmail.com?subject=Hello%20Ivan"
  {
    AddressText();
  }

  /** A literal fact in a lemma of its own, so that the solver proves it
      apart from the definitions of the proof that uses it. */
  lemma AddressText()
    ensures "mailto:" + "ivan.golubev.spb@gmail.com" == "mailto:ivan.golubev.spb@gmail.com"
  {
  }

  /** The target of the email link: `obf1(obf0()) + obf2()`. */
  method EmailLink() returns (link: string)
    ensures link == MailtoUri("ivan.golubev.spb@gmail.com", [("subject", "Hello%20Ivan")])
    ensures link == "mailto:ivan.golubev.spb@gmail.com?subject=Hello%20Ivan"
  {
    var arr := Obf0();
    var address := Obf1(arr);
    ghost var parts := arr[..];
    assert parts == Reverse(AddressParts);
    EmailAddress();
    var subject := Obf2();
    link := address + subject;
    LinkText();
    EmailLinkIsMailto();
  }

  /** The account part of `obf3`: the reversed dotted join. */
  lemma SkypeAccount()
    ensures Join(Reverse(["spb", Join(MapObf4([103, 111, 108, 117, 98, 101, 118]), ""), "ivan"]), ".")
         == "ivan.golubev.spb"
  {
    Obf4Words();
    ReversedAccount();
    DottedAccount();
  }

  /** A literal fact in a lemma of its own, so that the solver proves it
      apart from the definitions of the proof that uses it. */
  lemma ReversedAccount()
    ensures Reverse(["spb", "golubev", "ivan"]) == ["ivan", "golubev", "spb"]
  {
  }

  /** A literal fact in a lemma of its own, so that the solver proves it
      apart from the definitions of the proof that uses it. */
  lemma DottedAccount()
    ensures Join(["ivan", "golubev", "spb"], ".") == "ivan.golubev.spb"
  {
  }

  /** A literal fact in a lemma of its own, so that the solver proves it
      apart from the definitions of the proof that uses it. */
  lemma SkypeText()
    ensures "skype:live:" + "ivan.golubev.spb" + "?chat" == "skype:live:ivan.golubev.spb?chat"
  {
  }

  /** A literal fact in a lemma of its own, so that the solver proves it
      apart from the definitions of the proof that uses it. */
  lemma SkypeUriText()
    ensures "skype:" + "live:ivan.golubev.spb" + "?" + "chat" == "skype:live:ivan.golubev.spb?chat"
  {
  }

  /** `obf3()`: the Skype link. */
  function Obf3(): (r: string)
    ensures r == SkypeUri("live:ivan.golubev.spb", "chat")
    ensures r == "skype:live:ivan.golubev.spb?chat"
  {
    SkypeAccount();
    SkypeText();
    SkypeUriText();
    "skype:live:"
    + Join(Reverse(["spb", Join(MapObf4([103, 111, 108, 117, 98, 101, 118]), ""), "ivan"]), ".")
    + "?chat"
  }
}
