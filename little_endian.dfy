/** Little-endian layout of bytes in 32-bit words, as the Cortex-M4 core stores them.
    The setup packet's raw word view and the TX FIFO packing of the driver both rest on it. */
module LittleEndian {

  /** The 32-bit word whose bytes, lowest address first, are b[0] .. b[3]. */
  function WordOf(b: seq<bv8>): bv32
    requires |b| == 4
  {
    (b[0] as bv32) | ((b[1] as bv32) << 8) | ((b[2] as bv32) << 16) | ((b[3] as bv32) << 24)
  }

  /** The four bytes of a word, lowest address first. */
  function BytesOf(w: bv32): (b: seq<bv8>)
    ensures |b| == 4
  {
    [(w & 0xFF) as bv8, ((w >> 8) & 0xFF) as bv8, ((w >> 16) & 0xFF) as bv8, ((w >> 24) & 0xFF) as bv8]
  }

  lemma WordOfBytesOf(w: bv32)
    ensures WordOf(BytesOf(w)) == w
  {}

  lemma BytesOfWordOf(b: seq<bv8>)
    requires |b| == 4
    ensures BytesOf(WordOf(b)) == b
  {}

  function Zeros(n: nat): (z: seq<bv8>)
    ensures |z| == n
    ensures forall i :: 0 <= i < n ==> z[i] == 0
  {
    seq(n, _ => 0)
  }

  /** `b` followed by zero bytes up to the next multiple of four. */
  function PadToWord(b: seq<bv8>): seq<bv8>
  {
    b + Zeros((4 - |b| % 4) % 4)
  }

  /** Packs bytes into words four at a time; a final partial word has its missing
      high-order bytes zero. */
  function PackWords(b: seq<bv8>): seq<bv32>
    decreases |b|
  {
    if |b| == 0 then []
    else if |b| < 4 then [WordOf(b + Zeros(4 - |b|))]
    else [WordOf(b[..4])] + PackWords(b[4..])
  }

  /** The bytes of a sequence of words, word by word. */
  function UnpackWords(ws: seq<bv32>): (b: seq<bv8>)
    ensures |b| == 4 * |ws|
  {
    if ws == [] then [] else BytesOf(ws[0]) + UnpackWords(ws[1..])
  }

  /** Packing n bytes takes ceil(n / 4) words. */
  lemma {:induction false} PackWordsLength(b: seq<bv8>)
    ensures |PackWords(b)| == (|b| + 3) / 4
    decreases |b|
  {
    if |b| >= 4 {
      PackWordsLength(b[4..]);
    }
  }

  /** Read back byte by byte, packed words give the input followed by zero padding. */
  lemma {:induction false} UnpackPackWords(b: seq<bv8>)
    ensures UnpackWords(PackWords(b)) == PadToWord(b)
    decreases |b|
  {
    if |b| == 0 {
    } else if |b| < 4 {
      UnpackPartialWord(b);
    } else {
      UnpackFirstWord(b);
      UnpackPackWords(b[4..]);
      PadAfterFirstWord(b);
    }
  }

  /** Fewer than four bytes pack into one word that reads back zero-padded. */
  lemma UnpackPartialWord(b: seq<bv8>)
    requires 0 < |b| < 4
    ensures UnpackWords(PackWords(b)) == PadToWord(b)
  {
    var w := b + Zeros(4 - |b|);
    BytesOfWordOf(w);
    assert PackWords(b) == [WordOf(w)];
    assert UnpackWords([WordOf(w)]) == BytesOf(WordOf(w)) + UnpackWords([]);
  }

  /** The first four bytes read back unchanged ahead of the rest. */
  lemma UnpackFirstWord(b: seq<bv8>)
    requires |b| >= 4
    ensures UnpackWords(PackWords(b)) == b[..4] + UnpackWords(PackWords(b[4..]))
  {
    BytesOfWordOf(b[..4]);
    assert PackWords(b)[1..] == PackWords(b[4..]);
  }

  /** Padding the bytes after the first word pads the whole sequence. */
  lemma PadAfterFirstWord(b: seq<bv8>)
    requires |b| >= 4
    ensures b[..4] + PadToWord(b[4..]) == PadToWord(b)
  {
    assert |b[4..]| % 4 == |b| % 4;
    assert b == b[..4] + b[4..];
  }

  /** Packing splits at any word boundary. */
  lemma {:induction false} PackWordsAppend(a: seq<bv8>, b: seq<bv8>)
    requires |a| % 4 == 0
    ensures PackWords(a + b) == PackWords(a) + PackWords(b)
    decreases |a|
  {
    if |a| == 0 {
      assert a + b == b;
    } else {
      assert (a + b)[..4] == a[..4];
      assert (a + b)[4..] == a[4..] + b;
      PackWordsAppend(a[4..], b);
    }
  }

  /** A whole word of bytes packs into exactly that word. */
  lemma PackOneWord(b: seq<bv8>)
    requires |b| == 4
    ensures PackWords(b) == [WordOf(b)]
  {
    assert b[4..] == [];
    assert b[..4] == b;
  }

  /** A final partial word packs with its missing bytes zero. */
  lemma PackPartialWord(b: seq<bv8>)
    requires 0 < |b| < 4
    ensures PackWords(b) == [WordOf(b + Zeros(4 - |b|))]
  {}
}
