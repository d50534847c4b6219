/**
 * The lazily loaded model bundle of app.py (`get_bundle` and the module
 * global `_BUNDLE`). Whether the bundle file exists and what `joblib.load`
 * returns are inputs: the loader is foreign.
 */
module BundleCache {
  import opened Wrappers

  /**
   * What `joblib.load` yields: which stored object it is, whether the dict
   * has a `'pipeline'` entry, and whether that pipeline has `predict_proba`.
   */
  datatype Bundle = Bundle(stored: nat, hasPipeline: bool, hasPredictProba: bool)

  /** The process-wide cache `_BUNDLE`, together with a count of the loads performed so far. */
  class Cache {
    var cached: Option<Bundle>
    ghost var loads: nat

    /** At import time `_BUNDLE` is `None` and nothing has been loaded. */
    constructor()
      ensures cached == None && loads == 0
    {
      cached := None;
      loads := 0;
    }

    /**
     * `get_bundle`: `None` whenever the file is absent, even with a bundle
     * cached; otherwise the cached bundle, loading `onDisk` first only while
     * the cache is empty.
     */
    method GetBundle(fileExists: bool, onDisk: Bundle) returns (b: Option<Bundle>)
      modifies this
      ensures !fileExists ==> b == None && cached == old(cached) && loads == old(loads)
      ensures fileExists && old(cached).Some? ==> b == old(cached) && cached == old(cached) && loads == old(loads)
      ensures fileExists && old(cached).None? ==> b == Some(onDisk) && cached == b && loads == old(loads) + 1
      ensures fileExists ==> b.Some? && cached == b
    {
      if !fileExists {
        return None;
      }
      if cached.None? {
        cached := Some(onDisk);
        loads := loads + 1;
      }
      b := cached;
    }
  }

  /**
   * Two calls while the file exists: the loader runs at most once, both calls
   * return the same bundle, and that is the one already cached if there was
   * one, else the one on disk at the first call.
   */
  method TwoCalls(c: Cache, onDisk1: Bundle, onDisk2: Bundle) returns (b1: Option<Bundle>, b2: Option<Bundle>)
    modifies c
    ensures b1 == b2 && b1.Some?
    ensures b1 == if old(c.cached).Some? then old(c.cached) else Some(onDisk1)
    ensures c.loads <= old(c.loads) + 1
    ensures c.loads == old(c.loads) <==> old(c.cached).Some?
  {
    b1 := c.GetBundle(true, onDisk1);
    b2 := c.GetBundle(true, onDisk2);
  }

  /** Removing the file hides the cached bundle without forgetting it: it reappears, unreloaded, once the file is back. */
  method HiddenWhileAbsent(c: Cache, onDisk1: Bundle, onDisk2: Bundle) returns (before: Option<Bundle>, during: Option<Bundle>, after: Option<Bundle>)
    modifies c
    ensures during == None
    ensures before == after && after.Some?
    ensures c.loads <= old(c.loads) + 1
  {
    before := c.GetBundle(true, onDisk1);
    during := c.GetBundle(false, onDisk2);
    after := c.GetBundle(true, onDisk2);
  }
}
