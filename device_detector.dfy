/**
 * The device probe the model workers use: memory and core count with a
 * default of 4, a mobile test from the user agent, touch support and
 * screen width, the resource tier derived from them, and the WASM thread
 * count. The readings from `navigator`, `self` and `screen` are passed in.
 */
module WorkerDeviceDetector {
  import opened Wrappers
  import opened Strings

  /** What `navigator.gpu.requestAdapter()` does: no `gpu`, an adapter, none, or a throw. */
  datatype Gpu = NoGpu | AdapterFound | NoAdapter | RequestThrows

  /**
   * One reading of the browser. A property that is missing or holds
   * `undefined` is None; `deviceMemory` and `hardwareConcurrency` may
   * also read 0.
   */
  datatype NavigatorInfo = NavigatorInfo(
    deviceMemory: Option<real>,
    hardwareConcurrency: Option<nat>,
    userAgent: Option<string>,
    maxTouchPoints: int,
    ontouchstartInSelf: bool,
    screenWidth: Option<int>,
    gpu: Gpu)

  datatype Tier = UltraLow | Low | Medium | High

  /** getDeviceMemory: `navigator.deviceMemory || 4`, and 4 without a navigator. */
  function DeviceMemory(nav: Option<NavigatorInfo>): (gb: real)
    ensures gb != 0.0
    ensures nav.None? || nav.value.deviceMemory.None? ==> gb == 4.0
    ensures nav.Some? && nav.value.deviceMemory.Some? && nav.value.deviceMemory.value != 0.0 ==>
      gb == nav.value.deviceMemory.value
  {
    if nav.Some? && nav.value.deviceMemory.Some? && nav.value.deviceMemory.value != 0.0 then
      nav.value.deviceMemory.value
    else 4.0
  }

  /** getHardwareConcurrency: `navigator.hardwareConcurrency || 4`, and 4 without a navigator. */
  function HardwareConcurrency(nav: Option<NavigatorInfo>): (cores: nat)
    ensures cores >= 1
    ensures nav.None? || nav.value.hardwareConcurrency.None? ==> cores == 4
    ensures nav.Some? && nav.value.hardwareConcurrency.Some? && nav.value.hardwareConcurrency.value != 0 ==>
      cores == nav.value.hardwareConcurrency.value
  {
    if nav.Some? && nav.value.hardwareConcurrency.Some? && nav.value.hardwareConcurrency.value != 0 then
      nav.value.hardwareConcurrency.value
    else 4
  }

  /** The alternatives of the user-agent pattern, lower-cased for the case-insensitive match. */
  const MobileTokens: seq<string> :=
    ["android", "webos", "iphone", "ipad", "ipod", "blackberry", "iemobile", "opera mini"]

  /** `/Android|webOS|iPhone|iPad|iPod|BlackBerry|IEMobile|Opera Mini/i.test(userAgent)` */
  predicate MobileUserAgent(userAgent: string) {
    exists k :: 0 <= k < |MobileTokens| && Contains(Lower(userAgent), MobileTokens[k])
  }

  /** isMobileDevice */
  function IsMobileDevice(nav: Option<NavigatorInfo>): (mobile: bool)
    ensures nav.None? ==> !mobile
    ensures nav.Some? ==> (mobile <==>
      MobileUserAgent(nav.value.userAgent.GetOr("")) ||
      ((nav.value.ontouchstartInSelf || nav.value.maxTouchPoints > 0) &&
       nav.value.screenWidth.Some? && nav.value.screenWidth.value < 768))
  {
    if nav.None? then false
    else
      var userAgent := nav.value.userAgent.GetOr("");
      var isMobileUA := MobileUserAgent(userAgent);
      var isTouchDevice := nav.value.ontouchstartInSelf || nav.value.maxTouchPoints > 0;
      var isSmallScreen := nav.value.screenWidth.Some? && nav.value.screenWidth.value < 768;
      isMobileUA || (isTouchDevice && isSmallScreen)
  }

  /** checkWebGPU: true only when an adapter comes back. */
  function CheckWebGpu(nav: Option<NavigatorInfo>): (available: bool)
    ensures available <==> nav.Some? && nav.value.gpu == AdapterFound
  {
    nav.Some? && nav.value.gpu == AdapterFound
  }

  /** The decision chain of getDeviceResourceTier. */
  function TierOf(memory: real, cores: int, isMobile: bool, hasWebGpu: bool): (tier: Tier)
    ensures isMobile ==> tier == UltraLow
    ensures !isMobile && (memory < 4.0 || cores < 4) ==> tier == Low
    ensures !isMobile && memory >= 8.0 && cores >= 4 && hasWebGpu ==> tier == High
    ensures tier == Medium <==> !isMobile && memory >= 4.0 && cores >= 4 && !(hasWebGpu && memory >= 8.0)
  {
    if isMobile then UltraLow
    else if memory < 4.0 || cores < 4 then Low
    else if hasWebGpu && memory >= 8.0 then High
    else Medium
  }

  /** getDeviceResourceTier */
  function DeviceResourceTier(nav: Option<NavigatorInfo>): (tier: Tier)
    ensures IsMobileDevice(nav) ==> tier == UltraLow
    ensures nav.None? ==> tier == Medium
  {
    TierOf(DeviceMemory(nav), HardwareConcurrency(nav), IsMobileDevice(nav), CheckWebGpu(nav))
  }

  function Rank(t: Tier): nat {
    match t
    case UltraLow => 0
    case Low => 1
    case Medium => 2
    case High => 3
  }

  /** On a desktop, more memory, more cores or WebGPU never lowers the tier. */
  lemma TierMonotone(m1: real, c1: int, g1: bool, m2: real, c2: int, g2: bool)
    requires m1 <= m2 && c1 <= c2 && (g1 ==> g2)
    ensures Rank(TierOf(m1, c1, false, g1)) <= Rank(TierOf(m2, c2, false, g2))
  {
  }

  /** getOptimalWasmThreads: 1 on mobile, else `Math.min(Math.floor(cores / 2), 4)`. */
  function OptimalWasmThreads(nav: Option<NavigatorInfo>): (threads: nat)
    ensures threads <= 4
    ensures IsMobileDevice(nav) ==> threads == 1
    ensures !IsMobileDevice(nav) ==> threads == if HardwareConcurrency(nav) / 2 < 4 then HardwareConcurrency(nav) / 2 else 4
  {
    var cores := HardwareConcurrency(nav);
    if IsMobileDevice(nav) then 1
    else if cores / 2 < 4 then cores / 2 else 4
  }

  /** A single-core desktop is given no WASM threads at all. */
  lemma OneCoreDesktopGetsNoThreads(nav: NavigatorInfo)
    requires nav.hardwareConcurrency == Some(1) && !IsMobileDevice(Some(nav))
    ensures OptimalWasmThreads(Some(nav)) == 0
  {
  }

  /** An iPhone user agent is mobile whatever the other readings are. */
  lemma IPhoneIsUltraLow(nav: NavigatorInfo, rest: string)
    requires nav.userAgent == Some("Mozilla/5.0 (iPhone; " + rest)
    ensures DeviceResourceTier(Some(nav)) == UltraLow
  {
    var ua := "Mozilla/5.0 (iPhone; " + rest;
    assert Lower(ua)[13..19] == "iphone";
    assert ContainsAt(Lower(ua), MobileTokens[2], 13);
  }
}
