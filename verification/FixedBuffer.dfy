/** The fixed-size character buffer behind log lines, and integer formatting into it. */
module FixedBuffer {
  import opened Basics
  import opened Decimal

  /** Room that formatInteger insists on; the longest integer needs 21 bytes. */
  const MAX_NUMERIC_SIZE := 32

  class Buffer {
    const data: array<char>
    var cur: nat

    ghost predicate Valid()
      reads this
    {
      cur <= data.Length
    }

    ghost function Contents(): string
      requires Valid()
      reads this, data
    {
      data[..cur]
    }

    constructor (size: nat)
      ensures Valid() && Contents() == "" && data.Length == size && fresh(data)
    {
      data := new char[size](_ => '\0');
      cur := 0;
    }

    function Avail(): int
      reads this
    {
      data.Length - cur
    }

    /** A text that would fill the buffer or overflow it is dropped whole. */
    method Append(text: string)
      requires Valid()
      modifies this`cur, data
      ensures Valid()
      ensures Contents() == if old(Avail()) > |text| then old(Contents()) + text else old(Contents())
    {
      if Avail() > |text| {
        forall i | 0 <= i < |text| { data[cur + i] := text[i]; }
        cur := cur + |text|;
        assert Contents()[..old(cur)] == old(Contents());
      }
    }

    method Reset()
      requires Valid()
      modifies this`cur
      ensures Valid() && Contents() == ""
    {
      cur := 0;
    }

    /** Appends the decimal text of a 64-bit value, or nothing when fewer than 32 bytes are free. */
    method FormatInteger(value: int)
      requires Valid() && -0x8000_0000_0000_0000 <= value < WORD
      modifies this`cur, data
      ensures Valid()
      ensures Contents() ==
              if old(Avail()) >= 32 then old(Contents()) + IntText(value) else old(Contents())
    {
      hide IntText;
      if Avail() >= MAX_NUMERIC_SIZE {
        var len := Convert(data, cur, value);
        cur := cur + len;
        assert Contents()[..old(cur)] == old(Contents());
        assert Contents() == Contents()[..old(cur)] + data[old(cur)..cur];
      }
    }
  }
}
