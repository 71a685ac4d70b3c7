/** The naming convention shared by every registry that loads plugins on a
    miss: a plugin `name` of a capability with library suffix `suffix` lives in
    the shared library "lib<name>_<suffix>.so". Loading itself (`dlopen`) is an
    oracle supplied by the caller. */
module Loader {

  function LibPath(name: string, suffix: string): (path: string)
    ensures |path| == |name| + |suffix| + 7
  {
    "lib" + name + "_" + suffix + ".so"
  }
}
