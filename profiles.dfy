/** Reading the profile names out of the lines of `~/.aws/config`
    (tests/test_aws_sso.py:156-162, repeated at lines 232-238). */
module ConfigProfiles {
  import opened PyText

  /** The section header that introduces a named profile. */
  const ProfileHeader: string := "[profile "

  /** A line contributes a name when, stripped, it starts with `[profile `. */
  predicate IsProfileLine(line: string)
  {
    StartsWith(Strip(line), ProfileHeader)
  }

  /** `line.strip().replace('[profile ', '').replace(']', '')`. */
  function ProfileName(line: string): (name: string)
    ensures ']' !in name
    ensures |name| <= |Strip(line)|
  {
    RemoveAll(RemoveAll(Strip(line), ProfileHeader), "]")
  }

  /** What one line contributes: its name when it is a profile header, nothing otherwise. */
  function LineNames(line: string): (names: seq<string>)
    ensures |names| <= 1
  {
    if IsProfileLine(line) then [ProfileName(line)] else []
  }

  /** The contributions of the lines, concatenated in line order. */
  function Gather(lines: seq<string>, contribution: string -> seq<string>): seq<string>
  {
    if lines == [] then [] else contribution(lines[0]) + Gather(lines[1..], contribution)
  }

  lemma {:induction false} GatherAppend(a: seq<string>, b: seq<string>, contribution: string -> seq<string>)
    ensures Gather(a + b, contribution) == Gather(a, contribution) + Gather(b, contribution)
  {
    if a == [] {
      assert a + b == b;
    } else {
      assert (a + b)[0] == a[0];
      assert (a + b)[1..] == a[1..] + b;
      GatherAppend(a[1..], b, contribution);
    }
  }

  /** The names of the profile lines, in file order, one per profile line. */
  function ProfileNames(lines: seq<string>): seq<string>
  {
    Gather(lines, LineNames)
  }

  /** There are never more names than lines. */
  lemma {:induction false} ProfileNamesBound(lines: seq<string>)
    ensures |ProfileNames(lines)| <= |lines|
  {
    if lines != [] {
      ProfileNamesBound(lines[1..]);
      assert |LineNames(lines[0])| <= 1;
    }
  }

  /** One line gives its name when it is a profile header, and nothing otherwise. */
  lemma ProfileNamesOfLine(line: string)
    ensures ProfileNames([line]) == if IsProfileLine(line) then [ProfileName(line)] else []
  {
    assert [line][1..] == [];
    assert ProfileNames([line]) == LineNames(line) + Gather([], LineNames);
  }

  /** No extracted name contains `]`. */
  lemma {:induction false} NamesHaveNoBracket(lines: seq<string>)
    ensures forall k :: 0 <= k < |ProfileNames(lines)| ==> ']' !in ProfileNames(lines)[k]
  {
    if lines != [] {
      NamesHaveNoBracket(lines[1..]);
      var head := LineNames(lines[0]);
      assert forall k :: 0 <= k < |head| ==> ']' !in head[k];
      assert ProfileNames(lines) == head + ProfileNames(lines[1..]);
    }
  }

  /** The names of two stretches of the file are the names of the first, then those of the second. */
  lemma ProfileNamesAppend(a: seq<string>, b: seq<string>)
    ensures ProfileNames(a + b) == ProfileNames(a) + ProfileNames(b)
  {
    GatherAppend(a, b, LineNames);
  }

  /** Lines that are not profile headers (`[default]`, `region = ...`, blank
      lines) contribute nothing, wherever they stand. */
  lemma {:induction false} OtherLinesIgnored(a: seq<string>, other: seq<string>, b: seq<string>)
    requires forall k :: 0 <= k < |other| ==> !IsProfileLine(other[k])
    ensures ProfileNames(a + other + b) == ProfileNames(a + b)
  {
    NoProfileLines(other);
    ProfileNamesAppend(a + other, b);
    ProfileNamesAppend(a, other);
    ProfileNamesAppend(a, b);
  }

  lemma {:induction false} NoProfileLines(other: seq<string>)
    requires forall k :: 0 <= k < |other| ==> !IsProfileLine(other[k])
    ensures ProfileNames(other) == []
  {
    if other != [] {
      assert !IsProfileLine(other[0]);
      NoProfileLines(other[1..]);
    }
  }

  /** The config line `[profile NAME]`. */
  function HeaderLine(name: string): string
  {
    ProfileHeader + name + "]"
  }

  /** A name that survives being written as a header and read back: it holds
      no `]` and no `[profile `. */
  predicate PlainName(name: string)
  {
    ']' !in name && !Occurs(ProfileHeader, name)
  }

  /** A header written `[profile NAME]` gives back NAME for every plain NAME. */
  lemma HeaderRoundTrip(name: string)
    requires PlainName(name)
    ensures IsProfileLine(HeaderLine(name))
    ensures ProfileName(HeaderLine(name)) == name
  {
    var line := HeaderLine(name);
    assert line[0] == '[' && line[|line| - 1] == ']';
    StripKeepsTrimmed(line);
    StartsWithIsPrefix(line, ProfileHeader);
    HeaderRemoved(name);
    RemoveTrailingChar(name, ']');
  }

  lemma HeaderRemoved(name: string)
    requires !Occurs(ProfileHeader, name)
    ensures RemoveAll(HeaderLine(name), ProfileHeader) == name + "]"
  {
    var line := HeaderLine(name);
    assert ProfileHeader <= line;
    assert line[|ProfileHeader|..] == name + "]";
    NoOccurrenceAppend(ProfileHeader, name, ']');
  }

  /** The loop at lines 156-162: strip each line and append the name of every profile header. */
  method ExtractProfiles(lines: seq<string>) returns (profiles: seq<string>)
    ensures profiles == ProfileNames(lines)
  {
    profiles := [];
    for i := 0 to |lines|
      invariant profiles == ProfileNames(lines[..i])
    {
      var line := Strip(lines[i]);
      if StartsWith(line, ProfileHeader) {
        var profileName := RemoveAll(RemoveAll(line, ProfileHeader), "]");
        profiles := profiles + [profileName];
      }
      assert lines[..i + 1] == lines[..i] + [lines[i]];
      ProfileNamesAppend(lines[..i], [lines[i]]);
      ProfileNamesOfLine(lines[i]);
    }
    assert lines[..|lines|] == lines;
  }
}
