/**
 * The model presets of the captioning worker: one FastVLM dtype choice per
 * resource tier, the size table used to estimate a preset's download in
 * MB, and the generic dtype/quantisation choice for other models.
 */
module WorkerModelConfig {
  import opened Wrappers
  import opened WorkerDeviceDetector

  /** The dtypes of the three FastVLM parts: embed_tokens, vision_encoder, decoder_model_merged. */
  datatype FastVlmConfig = FastVlmConfig(embedTokens: string, visionEncoder: string, decoderModelMerged: string)

  function TierName(t: Tier): string {
    match t
    case UltraLow => "ultra-low"
    case Low => "low"
    case Medium => "medium"
    case High => "high"
  }

  /** `FASTVLM_CONFIGS[tier]`; None for a name the table does not hold. */
  function FastVlmConfigs(tier: string): (c: Option<FastVlmConfig>)
    ensures c.Some? <==> tier in {"ultra-low", "low", "medium", "high"}
  {
    if tier == "ultra-low" then Some(FastVlmConfig("q4f16", "q4f16", "q4f16"))
    else if tier == "low" then Some(FastVlmConfig("q4f16", "q4f16", "q4f16"))
    else if tier == "medium" then Some(FastVlmConfig("fp16", "q4f16", "q4"))
    else if tier == "high" then Some(FastVlmConfig("fp16", "fp16", "fp16"))
    else None
  }

  /** getFastVLMConfigForTier: the tier's preset, or the "low" preset for an unknown tier. */
  function FastVlmConfigForTier(tier: string): (c: FastVlmConfig)
    ensures FastVlmConfigs(tier).Some? ==> c == FastVlmConfigs(tier).value
    ensures FastVlmConfigs(tier).None? ==> c == FastVlmConfigs("low").value
  {
    match FastVlmConfigs(tier)
    case Some(c) => c
    case None => FastVlmConfigs("low").value
  }

  /** getFastVLMConfig: every detected tier has a preset. */
  function FastVlmConfigForDevice(nav: Option<NavigatorInfo>): (c: FastVlmConfig)
    ensures c == FastVlmConfigForTier(TierName(DeviceResourceTier(nav)))
    ensures IsMobileDevice(nav) ==> c == FastVlmConfigs("ultra-low").value
  {
    FastVlmConfigs(TierName(DeviceResourceTier(nav))).value
  }

  /** The ultra-low and low presets are the same, all q4f16. */
  lemma UltraLowIsLow()
    ensures FastVlmConfigs("ultra-low") == FastVlmConfigs("low")
    ensures FastVlmConfigs("low") == Some(FastVlmConfig("q4f16", "q4f16", "q4f16"))
  {
  }

  /** The `sizes` table of estimateModelSize, in MB, keyed by dtype, "vision_" + dtype and "decoder_" + dtype. */
  const Sizes: map<string, nat> := map[
    "fp16" := 272, "q4f16" := 272, "q4" := 544, "int8" := 136, "uint8" := 136, "bnb4" := 544, "quantized" := 136,
    "vision_fp16" := 253, "vision_q4f16" := 253, "vision_q4" := 505, "vision_int8" := 223,
    "vision_uint8" := 223, "vision_bnb4" := 505, "vision_quantized" := 223,
    "decoder_fp16" := 992, "decoder_q4f16" := 282, "decoder_q4" := 317, "decoder_int8" := 503,
    "decoder_uint8" := 503, "decoder_bnb4" := 287, "decoder_quantized" := 503]

  /** Every entry of the table lies between 136 and 992 MB; none is 0. */
  lemma SizesRange(key: string)
    requires key in Sizes
    ensures 136 <= Sizes[key] <= 992
  {
  }

  /** `sizes[key] || default`: no table entry is 0, so only a missing key falls back. */
  function SizeOr(key: string, default: nat): (mb: nat)
    ensures key !in Sizes ==> mb == default
    ensures key in Sizes ==> mb == Sizes[key]
  {
    if key in Sizes && Sizes[key] != 0 then Sizes[key] else default
  }

  /** estimateModelSize: the three parts' sizes, with 272, 253 and 317 for unknown dtypes. */
  function EstimateModelSize(config: FastVlmConfig): (mb: nat)
    ensures mb == SizeOr(config.embedTokens, 272) + SizeOr("vision_" + config.visionEncoder, 253) +
                  SizeOr("decoder_" + config.decoderModelMerged, 317)
  {
    var embedSize := SizeOr(config.embedTokens, 272);
    var visionSize := SizeOr("vision_" + config.visionEncoder, 253);
    var decoderSize := SizeOr("decoder_" + config.decoderModelMerged, 317);
    embedSize + visionSize + decoderSize
  }

  /** Whatever the dtypes, the estimate lies between 3 x 136 and 3 x 992 MB. */
  lemma EstimateRange(config: FastVlmConfig)
    ensures 3 * 136 <= EstimateModelSize(config) <= 3 * 992
  {
    var keys := [config.embedTokens, "vision_" + config.visionEncoder, "decoder_" + config.decoderModelMerged];
    forall k | k in keys && k in Sizes ensures 136 <= Sizes[k] <= 992 {
      SizesRange(k);
    }
  }

  /** The low (and ultra-low) preset totals 272 + 253 + 282 = 807 MB, as its comment says. */
  lemma LowPresetEstimate()
    ensures EstimateModelSize(FastVlmConfigForTier("low")) == 807
    ensures EstimateModelSize(FastVlmConfigForTier("ultra-low")) == 807
  {
    var c := FastVlmConfig("q4f16", "q4f16", "q4f16");
    assert FastVlmConfigForTier("low") == c && FastVlmConfigForTier("ultra-low") == c;
    assert "vision_" + "q4f16" == "vision_q4f16";
    assert "decoder_" + "q4f16" == "decoder_q4f16";
  }

  /** The medium preset totals 272 + 253 + 317 = 842 MB. */
  lemma MediumPresetEstimate()
    ensures EstimateModelSize(FastVlmConfigForTier("medium")) == 842
  {
    assert FastVlmConfigForTier("medium") == FastVlmConfig("fp16", "q4f16", "q4");
    assert "vision_" + "q4f16" == "vision_q4f16";
    assert "decoder_" + "q4" == "decoder_q4";
  }

  /** The high preset totals 272 + 253 + 992 = 1517 MB, the "~1.5 GB" of its comment. */
  lemma HighPresetEstimate()
    ensures EstimateModelSize(FastVlmConfigForTier("high")) == 1517
  {
    assert FastVlmConfigForTier("high") == FastVlmConfig("fp16", "fp16", "fp16");
    assert "vision_" + "fp16" == "vision_fp16";
    assert "decoder_" + "fp16" == "decoder_fp16";
  }

  /** An unknown tier is estimated as the low preset. */
  lemma UnknownTierEstimate(tier: string)
    requires tier !in {"ultra-low", "low", "medium", "high"}
    ensures EstimateModelSize(FastVlmConfigForTier(tier)) == 807
  {
    LowPresetEstimate();
  }

  /** The settings getGenericModelConfig returns: a dtype and whether it is quantised. */
  datatype GenericConfig = GenericConfig(dtype: string, quantized: bool)

  /** The `configs` table of getGenericModelConfig. */
  function GenericConfigs(tier: string): (c: Option<GenericConfig>)
    ensures c.Some? <==> tier in {"low", "medium", "high"}
  {
    if tier == "low" then Some(GenericConfig("q4", true))
    else if tier == "medium" then Some(GenericConfig("q8", true))
    else if tier == "high" then Some(GenericConfig("fp16", false))
    else None
  }

  /**
   * getGenericModelConfig as written: the given tier, or the detected one
   * when none (or an empty one) is given, looked up in a table without an
   * "ultra-low" row.
   */
  function GenericModelConfig(tier: Option<string>, detected: Tier): (c: Option<GenericConfig>)
    ensures tier.Some? && tier.value != "" ==> c == GenericConfigs(tier.value)
    ensures (tier.None? || tier.value == "") ==> (c.None? <==> detected == UltraLow)
  {
    var resourceTier := if tier.Some? && tier.value != "" then tier.value else TierName(detected);
    GenericConfigs(resourceTier)
  }

  /** On a detected mobile device the as-written lookup finds nothing. */
  lemma MobileDetectionFindsNoGenericConfig()
    ensures GenericModelConfig(None, UltraLow) == None
  {
  }

  /** The lookup with the ultra-low tier served by the low row. */
  function GenericModelConfigForDevice(tier: Option<string>, detected: Tier): (c: Option<GenericConfig>)
    ensures (tier.None? || tier.value == "") ==> c.Some?
    ensures detected != UltraLow || (tier.Some? && tier.value != "") ==> c == GenericModelConfig(tier, detected)
    ensures (tier.None? || tier.value == "") && detected == UltraLow ==> c == GenericConfigs("low")
  {
    var resourceTier := if tier.Some? && tier.value != "" then tier.value else TierName(detected);
    if resourceTier == "ultra-low" && (tier.None? || tier.value == "") then GenericConfigs("low")
    else GenericConfigs(resourceTier)
  }

  /** low is quantised to q4, medium to q8, and high runs fp16 unquantised. */
  lemma GenericConfigTable()
    ensures GenericConfigs("low") == Some(GenericConfig("q4", true))
    ensures GenericConfigs("medium") == Some(GenericConfig("q8", true))
    ensures GenericConfigs("high") == Some(GenericConfig("fp16", false))
    ensures GenericConfigs("ultra-low") == None
  {
  }
}
