/** The picture quantization of the HCodec encoder: the setter that brings the layers into normal form, and its reader. */
module Quantization {

  const CODEC_QP_MIN := 4
  const CODEC_QP_MAX := 51

  /** `type_` is a set of picture type bits; only the three single ones are looked at. */
  datatype PictureType = I | P | B | Other(bits: int)

  datatype Layer = Layer(kind: PictureType, min: int, max: int)

  datatype Qp = Qp(min: int, max: int)

  const DEFAULT_QP := Qp(10, 40)

  function Clamp(v: int, lo: int, hi: int): int
    requires lo <= hi
  {
    if v < lo then lo else if hi < v then hi else v
  }

  function Legal(qp: Qp): Qp {
    Qp(Clamp(qp.min, CODEC_QP_MIN, CODEC_QP_MAX), Clamp(qp.max, CODEC_QP_MIN, CODEC_QP_MAX))
  }

  /** The values of the last layer of a picture type, or the default. */
  function LastQp(layers: seq<Layer>, kind: PictureType): Qp {
    if layers == [] then DEFAULT_QP
    else
      var last := layers[|layers| - 1];
      if last.kind == kind then Qp(last.min, last.max) else LastQp(layers[..|layers| - 1], kind)
  }

  /** What the setter makes of one layer of a list. */
  function NormalLayer(layers: seq<Layer>, layer: Layer): Layer {
    if layer.kind.Other? then layer
    else
      var qp := Legal(LastQp(layers, layer.kind));
      Layer(layer.kind, qp.min, qp.max)
  }

  function Normalized(layers: seq<Layer>): (n: seq<Layer>)
    ensures |n| == |layers|
  {
    seq(|layers|, i requires 0 <= i < |layers| => NormalLayer(layers, layers[i]))
  }

  /** The reading loop, which the setter and getQp share. */
  method ReadLayers(layers: array<Layer>) returns (i: Qp, p: Qp, b: Qp)
    ensures i == LastQp(layers[..], I) && p == LastQp(layers[..], P) && b == LastQp(layers[..], B)
  {
    i, p, b := DEFAULT_QP, DEFAULT_QP, DEFAULT_QP;
    for k := 0 to layers.Length
      invariant i == LastQp(layers[..k], I) && p == LastQp(layers[..k], P) && b == LastQp(layers[..k], B)
    {
      var layer := layers[k];
      assert layers[..k + 1][..k] == layers[..k];
      if layer.kind == I {
        i := Qp(layer.min, layer.max);
      } else if layer.kind == P {
        p := Qp(layer.min, layer.max);
      } else if layer.kind == B {
        b := Qp(layer.min, layer.max);
      }
    }
    assert layers[..layers.Length] == layers[..];
  }

  /** `PictureQuantizationSetter`. */
  method PictureQuantizationSetter(layers: array<Layer>)
    modifies layers
    ensures layers[..] == Normalized(old(layers[..]))
  {
    var i, p, b := ReadLayers(layers);
    i, p, b := Legal(i), Legal(p), Legal(b);
    for k := 0 to layers.Length
      invariant layers[..k] == Normalized(old(layers[..]))[..k]
      invariant layers[k..] == old(layers[..])[k..]
    {
      var layer := layers[k];
      assert layer == old(layers[..])[k..][0];
      if layer.kind == I {
        layers[k] := layer.(min := i.min, max := i.max);
      }
      if layer.kind == P {
        layers[k] := layer.(min := p.min, max := p.max);
      }
      if layer.kind == B {
        layers[k] := layer.(min := b.min, max := b.max);
      }
      assert layers[k] == NormalLayer(old(layers[..]), layer);
    }
  }

  /** `getQp`. */
  method GetQp(layers: array<Layer>) returns (iMax: int, iMin: int, pMax: int, pMin: int)
    ensures Qp(iMin, iMax) == LastQp(layers[..], I) && Qp(pMin, pMax) == LastQp(layers[..], P)
  {
    var i, p, b := ReadLayers(layers);
    iMax, iMin, pMax, pMin := i.max, i.min, p.max, p.min;
  }

  /** The last layer of a type is a layer of that type, and no later one is. */
  lemma {:induction false} LastQpIsLast(layers: seq<Layer>, kind: PictureType, k: nat)
    requires k < |layers| && layers[k].kind == kind && forall j :: k < j < |layers| ==> layers[j].kind != kind
    ensures LastQp(layers, kind) == Qp(layers[k].min, layers[k].max)
    decreases |layers|
  {
    if k < |layers| - 1 {
      LastQpIsLast(layers[..|layers| - 1], kind, k);
    }
  }

  lemma {:induction false} LastQpOfNone(layers: seq<Layer>, kind: PictureType)
    requires forall j :: 0 <= j < |layers| ==> layers[j].kind != kind
    ensures LastQp(layers, kind) == DEFAULT_QP
    decreases |layers|
  {
    if layers != [] {
      LastQpOfNone(layers[..|layers| - 1], kind);
    }
  }

  /** Every list has a last layer of a type, or none. */
  lemma {:induction false} LastOrNone(layers: seq<Layer>, kind: PictureType) returns (k: int)
    ensures -1 <= k < |layers|
    ensures k >= 0 ==> layers[k].kind == kind
    ensures forall j :: k < j < |layers| ==> layers[j].kind != kind
    decreases |layers|
  {
    if layers == [] {
      k := -1;
    } else if layers[|layers| - 1].kind == kind {
      k := |layers| - 1;
    } else {
      k := LastOrNone(layers[..|layers| - 1], kind);
    }
  }

  /**
   * Reading back: after the setter the last layer of each type, and so getQp, gives the clamped values that
   * the last layer of that type had before, or the defaults.
   */
  lemma ReadBack(layers: seq<Layer>, kind: PictureType)
    requires !kind.Other?
    ensures LastQp(Normalized(layers), kind) == Legal(LastQp(layers, kind))
    ensures var qp := LastQp(Normalized(layers), kind);
      CODEC_QP_MIN <= qp.min <= CODEC_QP_MAX && CODEC_QP_MIN <= qp.max <= CODEC_QP_MAX
  {
    var k := LastOrNone(layers, kind);
    var n := Normalized(layers);
    assert forall j :: 0 <= j < |layers| ==> n[j].kind == layers[j].kind;
    if k >= 0 {
      LastQpIsLast(layers, kind, k);
      LastQpIsLast(n, kind, k);
    } else {
      LastQpOfNone(layers, kind);
      LastQpOfNone(n, kind);
    }
  }

  /**
   * Normal form: afterwards all layers of one picture type carry the same values, those of the type's last
   * layer (at `k`) clamped to 4..51; a layer of no single type is as before; no layer changes its type.
   */
  lemma NormalForm(layers: seq<Layer>, i: nat, k: nat)
    requires i < |layers| && k < |layers| && layers[i].kind == layers[k].kind
    requires forall j :: k < j < |layers| ==> layers[j].kind != layers[k].kind
    ensures Normalized(layers)[i] ==
      if layers[i].kind.Other? then layers[i]
      else Layer(layers[i].kind, Clamp(layers[k].min, 4, 51), Clamp(layers[k].max, 4, 51))
  {
    LastQpIsLast(layers, layers[k].kind, k);
  }

  /** A second run changes nothing. */
  lemma NormalizingTwice(layers: seq<Layer>)
    ensures Normalized(Normalized(layers)) == Normalized(layers)
  {
    var n := Normalized(layers);
    forall i | 0 <= i < |layers| ensures NormalLayer(n, n[i]) == n[i] {
      if !layers[i].kind.Other? {
        ReadBack(layers, layers[i].kind);
      }
    }
  }

  /** The setter leaves a list alone exactly if it is in normal form already. */
  lemma UnchangedIfNormal(layers: seq<Layer>)
    ensures Normalized(layers) == layers <==>
      forall i :: 0 <= i < |layers| && !layers[i].kind.Other? ==>
        Qp(layers[i].min, layers[i].max) == Legal(LastQp(layers, layers[i].kind))
  {
    var n := Normalized(layers);
    if Normalized(layers) == layers {
      forall i | 0 <= i < |layers| && !layers[i].kind.Other?
        ensures Qp(layers[i].min, layers[i].max) == Legal(LastQp(layers, layers[i].kind))
      {
        assert n[i] == NormalLayer(layers, layers[i]);
      }
    }
  }
}
