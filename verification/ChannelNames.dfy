/** Channel names as the processor and the channel service normalize them, and as the IRC client does. */
module ChannelNames {
  import opened GoStrings
  import opened IrcClient

  function NormalizeChannelName(name: string): string {
    TrimPrefix(TrimSpace(ToLower(name)), "#")
  }

  predicate Lower(s: string) {
    forall c :: c in s ==> LowerChar(c) == c
  }

  lemma LowerIsFixed(s: string)
    ensures Lower(ToLower(s))
    ensures Lower(s) ==> ToLower(s) == s
  {
  }

  lemma TrimSpaceWithin(s: string)
    ensures forall c :: c in TrimSpace(s) ==> c in s
  {
    TrimLeftTrims(s);
    TrimRightTrims(TrimLeft(s));
  }

  /** What is left after lower-casing and trimming, before the prefix goes. */
  function Stem(name: string): string {
    TrimSpace(ToLower(name))
  }

  lemma StemIsClean(name: string)
    ensures Lower(Stem(name)) && Trimmed(Stem(name))
  {
    LowerIsFixed(name);
    TrimSpaceWithin(ToLower(name));
    TrimSpaceTrims(ToLower(name));
  }

  lemma CleanIsFixed(s: string)
    requires Lower(s)
    ensures NormalizeChannelName(s) == TrimPrefix(TrimSpace(s), "#")
    ensures Trimmed(s) ==> NormalizeChannelName(s) == TrimPrefix(s, "#")
    ensures !Trimmed(s) ==> |NormalizeChannelName(s)| < |s|
  {
    LowerIsFixed(s);
    TrimSpaceTrims(s);
    TrimLeftTrims(s);
    TrimRightTrims(TrimLeft(s));
  }

  /** A name is taken without the white space around it and without its '#', in lower case; the IRC client
      puts the '#' back. */
  lemma NamesAreCleaned(a: string, s: string, b: string)
    requires Blank(a) && Blank(b) && s != "" && Trimmed(s) && s[0] != '#'
    ensures NormalizeChannelName(a + s + b) == ToLower(s) == NormalizeChannelName(a + ("#" + s) + b)
    ensures NormalizeChannel(a + s + b) == "#" + ToLower(s) == NormalizeChannel(a + ("#" + s) + b)
    ensures NormalizeChannelName(a) == ""
  {
    BlankIsCaseless(a);
    BlankIsCaseless(ToLower(a));
    LowerThenTrim(a, s, b);
    LowerThenTrim(a, "#" + s, b);
    TrimSpaceCuts(a, s, b);
    TrimSpaceCuts(a, "#" + s, b);
    assert ToLower("#" + s) == "#" + ToLower(s);
    assert ToLower(s)[0] == LowerChar(s[0]);
  }

  /** Normalizing a name twice changes nothing more, unless the first time uncovered another '#' or a
      space: the cache then holds the channel under a name that no lookup of that name reaches. */
  lemma NormalizesOnceIff(name: string)
    ensures var stem := Stem(name);
            NormalizeChannelName(NormalizeChannelName(name)) == NormalizeChannelName(name)
            <==> !HasPrefix(stem, "#") || stem == "#" || (stem[1] != '#' && !IsSpace(stem[1]))
  {
    var stem := Stem(name);
    StemIsClean(name);
    var n := NormalizeChannelName(name);
    assert Lower(n);
    CleanIsFixed(n);
  }

  lemma DoubleHashIsNotFixed()
    ensures NormalizeChannelName("##a") == "#a" && NormalizeChannelName("#a") == "a"
  {
    LowerIsFixed("##a");
    CleanIsFixed("##a");
    CleanIsFixed("#a");
  }

  /** The IRC client takes the name of a channel, with its '#', as it is. */
  predicate Plain(name: string) {
    NormalizeChannel("#" + name) == "#" + name
  }

  lemma NormalizedIsPlain(name: string)
    requires NormalizeChannelName(name) != ""
    ensures Plain(NormalizeChannelName(name))
  {
    var stem, n := Stem(name), NormalizeChannelName(name);
    StemIsClean(name);
    assert n[|n| - 1] == stem[|stem| - 1];
    var h := "#" + n;
    assert h[|h| - 1] == n[|n| - 1] && Trimmed(h);
    TrimSpaceTrims(h);
    assert Lower(h);
    LowerIsFixed(h);
  }
}
