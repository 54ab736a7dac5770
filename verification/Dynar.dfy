/** The bounded growable buffer under the codecs. */
module Dynar {

  class Buffer {
    var data: array<char>
    var size: nat
    var maximum: nat

    ghost predicate Valid()
      reads this
    {
      size <= data.Length
    }

    ghost function Contents(): string
      reads this, data
      requires Valid()
    {
      data[..size]
    }

    constructor (maximum: nat)
      ensures Valid() && fresh(data) && Contents() == "" && this.maximum == maximum
    {
      data := new char[0];
      size, this.maximum := 0, maximum;
    }

    /** An array of another size with the same contents; refused above the maximum. */
    method Realloc(capacity: nat) returns (ok: bool)
      requires Valid() && size <= capacity
      modifies this`data
      ensures Valid() && Contents() == old(Contents())
      ensures ok <==> capacity <= maximum
      ensures if ok then fresh(data) && data.Length == capacity else data == old(data)
    {
      if capacity > maximum {
        return false;
      }
      var bigger := new char[capacity](_ => ' ');
      for i := 0 to size
        modifies bigger
        invariant bigger[..i] == data[..i]
      {
        bigger[i] := data[i];
      }
      data := bigger;
      ok := true;
    }

    /** Room for n more characters: refused exactly when the maximum would be exceeded. The
        buffer at least doubles when it grows, but not beyond the maximum. */
    method Prealloc(n: nat) returns (ok: bool)
      requires Valid()
      modifies this`data
      ensures Valid() && Contents() == old(Contents())
      ensures ok <==> size + n <= maximum
      ensures ok ==> size + n <= data.Length
      ensures data == old(data) || (fresh(data) && old(data).Length < data.Length <= maximum)
    {
      if size + n > maximum {
        return false;
      }
      if size + n > data.Length {
        var newSize := (data.Length + n) * 2;
        if newSize > maximum {
          newSize := maximum;
        }
        ok := Realloc(newSize);
        return;
      }
      ok := true;
    }

    /** Append: all of src, or nothing when it does not fit. */
    method Cat(src: string) returns (ok: bool)
      requires Valid()
      modifies this, data
      ensures Valid() && maximum == old(maximum) && (data == old(data) || fresh(data))
      ensures ok <==> old(size) + |src| <= maximum
      ensures Contents() == if ok then old(Contents()) + src else old(Contents())
    {
      ok := Prealloc(|src|);
      if !ok {
        return;
      }
      ghost var before := Contents();
      var d := data;
      for i := 0 to |src|
        modifies d
        invariant d[..size + i] == before + src[..i]
      {
        d[size + i] := src[i];
      }
      size := size + |src|;
    }

    /** Move the first n characters up by k places. */
    static method MoveUp(d: array<char>, n: nat, k: nat)
      requires n + k <= d.Length
      modifies d
      ensures d[k..n + k] == old(d[..n])
    {
      for i := n downto 0
        invariant forall j | 0 <= j < i :: d[j] == old(d[j])
        invariant forall j | i <= j < n :: d[j + k] == old(d[j])
      {
        d[i + k] := d[i];
      }
    }

    /** Write src over the start of the array. */
    static method CopyIn(d: array<char>, src: string)
      requires |src| <= d.Length
      modifies d
      ensures d[..] == src + old(d[..])[|src|..]
    {
      for i := 0 to |src|
        invariant forall j | 0 <= j < i :: d[j] == src[j]
        invariant forall j | i <= j < d.Length :: d[j] == old(d[j])
      {
        d[i] := src[i];
      }
    }

    /** Insert in front: the old contents move up first. */
    method Prepend(src: string) returns (ok: bool)
      requires Valid()
      modifies this, data
      ensures Valid() && maximum == old(maximum) && (data == old(data) || fresh(data))
      ensures ok <==> old(size) + |src| <= maximum
      ensures Contents() == if ok then src + old(Contents()) else old(Contents())
    {
      ok := Prealloc(|src|);
      if !ok {
        return;
      }
      ghost var before := Contents();
      MoveUp(data, size, |src|);
      ghost var moved := data[..];
      assert moved[|src|..size + |src|] == before;
      CopyIn(data, src);
      PutInFront(src, before, moved);
      size := size + |src|;
      assert data[..size] == data[..][..size];
    }

    static lemma PutInFront(src: string, before: string, moved: string)
      requires |src| + |before| <= |moved| && moved[|src|..|before| + |src|] == before
      ensures (src + moved[|src|..])[..|before| + |src|] == src + before
    {
    }

    /** Set the size, raising the maximum when necessary. */
    method SetSize(newSize: nat)
      requires Valid()
      modifies this
      ensures Valid() && size == newSize && maximum == if newSize > old(maximum) then newSize else old(maximum)
      ensures var kept := if newSize < old(size) then newSize else old(size); Contents()[..kept] == old(Contents())[..kept]
    {
      ghost var before := Contents();
      if newSize > maximum {
        maximum := newSize;
      }
      if newSize > size {
        var ok := Prealloc(newSize - size);
      }
      size := newSize;
    }

    /** Append one character of a quoted string. */
    method QuoteChar(ch: char) returns (ok: bool)
      requires Valid()
      modifies this, data
      ensures Valid() && maximum == old(maximum) && (data == old(data) || fresh(data))
      ensures ok <==> old(size) + |EscapedChar(ch)| <= maximum
      ensures ok ==> Contents() == old(Contents()) + EscapedChar(ch)
      ensures old(Contents()) <= Contents() <= old(Contents()) + EscapedChar(ch)
    {
      if ch == '"' || ch == '\\' {
        ok := Cat("\\");
        if !ok {
          return;
        }
      }
      ok := Cat([ch]);
    }

    /** Append a string in quotes, with a backslash before every quote and backslash. When that
        does not fit, a part of it may be left behind. */
    method QuoteCat(str: string) returns (ok: bool)
      requires Valid()
      modifies this, data
      ensures Valid() && maximum == old(maximum)
      ensures ok <==> old(size) + |Quoted(str)| <= maximum
      ensures ok ==> Contents() == old(Contents()) + Quoted(str)
      ensures old(Contents()) <= Contents() <= old(Contents()) + Quoted(str)
    {
      ghost var before := Contents();
      assert before + Quoted(str) == before + "\"" + Escaped(str) + "\"";
      ok := Cat("\"");
      if !ok {
        return;
      }
      ok := QuoteBody(str);
      if !ok {
        return;
      }
      ok := Cat("\"");
    }

    /** Append the next character of a string that is being quoted. */
    method QuoteNext(str: string, i: nat, ghost before: string) returns (ok: bool)
      requires Valid() && i < |str| && Contents() == before + Escaped(str[..i])
      modifies this, data
      ensures Valid() && maximum == old(maximum) && (data == old(data) || fresh(data))
      ensures ok <==> |before| + |Escaped(str[..i + 1])| <= maximum
      ensures ok ==> Contents() == before + Escaped(str[..i + 1])
      ensures before <= Contents() <= before + Escaped(str[..i + 1])
    {
      assert str[..i + 1][..i] == str[..i];
      ok := QuoteChar(str[i]);
    }

    /** The characters between the quotes. */
    method QuoteBody(str: string) returns (ok: bool)
      requires Valid() && size <= maximum
      modifies this, data
      ensures Valid() && maximum == old(maximum) && (data == old(data) || fresh(data))
      ensures ok <==> old(size) + |Escaped(str)| <= maximum
      ensures ok ==> Contents() == old(Contents()) + Escaped(str)
      ensures old(Contents()) <= Contents() <= old(Contents()) + Escaped(str)
    {
      ghost var before := Contents();
      ok := true;
      assert Escaped(str[..0]) == "" && before + "" == before;
      for i := 0 to |str|
        invariant ok && Valid() && size <= maximum == old(maximum) && (data == old(data) || fresh(data))
        invariant Contents() == before + Escaped(str[..i])
      {
        EscapedGrows(str, i + 1);
        ok := QuoteNext(str, i, before);
        if !ok {
          return;
        }
      }
      assert str[..|str|] == str;
    }
  }

  function EscapedChar(ch: char): string {
    if ch == '"' || ch == '\\' then ['\\', ch] else [ch]
  }

  /** A backslash before every quote and backslash. */
  function Escaped(str: string): (r: string)
    ensures |r| >= |str|
  {
    if str == "" then ""
    else
      Escaped(str[..|str| - 1]) + EscapedChar(str[|str| - 1])
  }

  function Quoted(str: string): string {
    "\"" + Escaped(str) + "\""
  }

  lemma {:induction false} EscapedGrows(str: string, n: nat)
    requires n <= |str|
    ensures Escaped(str[..n]) <= Escaped(str)
  {
    if n < |str| {
      EscapedGrows(str[..|str| - 1], n);
      assert str[..|str| - 1][..n] == str[..n];
    } else {
      assert str[..n] == str;
    }
  }
}
