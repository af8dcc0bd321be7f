/** The program tables that open every segment file (hls.go:1094-1223): fixed sections, each closed by its CRC. */
module Psi {
  import opened Bytes
  import opened Crc

  const PAT_BODY: seq<bv8> :=
    [0x00, 0xb0, 0x0d, 0x00, 0x01, 0xc1, 0x00, 0x00, 0x00, 0x01, 0xf0, 0x01]

  const PMT_BODY: seq<bv8> :=
    [0x02, 0xb0, 0x17, 0x00, 0x01, 0xc1, 0x00, 0x00, 0xe1, 0x00, 0xf0, 0x00,
     0x0f, 0xe1, 0x01, 0xf0, 0x00,
     0x1b, 0xe1, 0x00, 0xf0, 0x00]

  /** A section: a body and its CRC, big-endian. */
  function Section(body: seq<bv8>): (s: seq<bv8>)
    ensures |s| == |body| + 4 && s[..|body|] == body
  {
    body + BigEndian(Remainder(body))
  }

  /** The same bytes as numbers. */
  function Octets(s: seq<bv8>): (r: seq<byte>)
    ensures |r| == |s|
  {
    seq(|s|, i requires 0 <= i < |s| => s[i] as int)
  }

  /** A section divides without a remainder, and no other four bytes behind its body do. */
  lemma SectionChecks(body: seq<bv8>, other: seq<bv8>)
    requires |other| == |body| + 4 && other[..|body|] == body
    ensures Remainder(other) == 0 <==> other == Section(body)
  {
    hide *;
    assert Section(body) == body + BigEndian(Remainder(body)) by {
      SectionShape(body);
    }
    CheckAccepts(body, other[|body|..]);
    assert other == body + other[|body|..];
    assert Section(body)[|body|..] == BigEndian(Remainder(body));
  }

  lemma SectionShape(body: seq<bv8>)
    ensures Section(body) == body + BigEndian(Remainder(body))
  {
  }

  method PatCreate() returns (patData: seq<byte>)
    ensures patData == Octets(Section(PAT_BODY))
  {
    hide Remainder, BigEndian, Octets;
    var crc32 := Crc32Create(PAT_BODY);
    patData := Octets(PAT_BODY + BigEndian(crc32));
  }

  method PmtCreate() returns (pmtData: seq<byte>)
    ensures pmtData == Octets(Section(PMT_BODY))
  {
    hide Remainder, BigEndian, Octets;
    var crc32 := Crc32Create(PMT_BODY);
    pmtData := Octets(PMT_BODY + BigEndian(crc32));
  }
}
