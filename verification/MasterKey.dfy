/** Which master key a boot ends up with, over any number of boots - one after the other or
    overlapping - on one database. */
module MasterKey {
  import opened Wrappers
  import opened Utf8
  import opened Crypto

  datatype Choice = UseEnv | UseDB | MirrorEnvToDB | Generate | MismatchError

  function DecideKey(envSet: bool, dbSet: bool, envEqualsDB: bool): Choice {
    if envSet && dbSet && envEqualsDB then UseEnv
    else if envSet && dbSet then MismatchError
    else if envSet then MirrorEnvToDB
    else if dbSet then UseDB
    else Generate
  }

  /** The MASTER_KEY variable: unset or empty, or set to something that decodes or does not. */
  datatype Env = Unset | Set(decoded: Option<Key>)

  /** The key a set variable gives; `None` for one that does not decode to 32 bytes. */
  function EnvKey(env: Env): Option<Option<Key>> {
    match env
    case Unset => Some(None)
    case Set(None) => None
    case Set(Some(k)) => if |k| == KEY_SIZE then Some(Some(k)) else None
  }

  /** What a boot does after reading the stored key: fail, return a key, or try to insert one. */
  datatype Plan = Fail | Return(key: Key) | Insert(key: Key)

  function Decide(env: Env, seen: Option<Key>, random: Key): Plan {
    match EnvKey(env)
    case None => Fail
    case Some(k) =>
      match DecideKey(k.Some?, seen.Some?, k.Some? && seen.Some? && k == seen)
      case UseEnv => if k.Some? then Return(k.value) else Fail
      case MismatchError => Fail
      case MirrorEnvToDB => if k.Some? then Insert(k.value) else Fail
      case UseDB => if seen.Some? then Return(seen.value) else Fail
      case Generate => Insert(random)
  }

  /** The system_secrets row. */
  class SystemSecrets {
    var stored: Option<Key>

    constructor ()
      ensures stored == None
    {
      stored := None;
    }

    /** The plain INSERT: a row already there is a primary key conflict. */
    method Insert(key: Key, fails: bool) returns (ok: bool)
      modifies this
      ensures ok == (!fails && old(stored).None?)
      ensures stored == if ok then Some(key) else old(stored)
    {
      ok := !fails && stored.None?;
      if ok {
        stored := Some(key);
      }
    }

    method LoadOrGenerateMasterKey(env: Env, random: Key, readFails: bool, insertFails: bool)
      returns (r: Option<Key>)
      requires |random| == KEY_SIZE
      modifies this
      ensures var plan := Decide(env, old(stored), random);
              && (stored == old(stored) || (old(stored).None? && plan.Insert? && stored == Some(plan.key)))
              && (r.Some? ==> stored == r)
              && (r.None? <==> readFails || plan.Fail? || (plan.Insert? && (insertFails || old(stored).Some?)))
      ensures !readFails && old(stored).Some? ==>
                r == match env
                     case Unset => old(stored)
                     case Set(k) => if k.Some? && |k.value| == 32 && k == old(stored) then k else None
      ensures !readFails && !insertFails && old(stored).None? ==>
                r == match env
                     case Unset => Some(random)
                     case Set(k) => if k.Some? && |k.value| == 32 then k else None
    {
      if readFails {
        return None;
      }
      var envKey: Option<Key> := None;
      if env.Set? {
        if env.decoded.None? || |env.decoded.value| != KEY_SIZE {
          return None;
        }
        envKey := env.decoded;
      }
      match DecideKey(envKey.Some?, stored.Some?, envKey.Some? && stored.Some? && envKey == stored) {
        case UseEnv => r := envKey;
        case MismatchError => r := None;
        case MirrorEnvToDB =>
          var ok := Insert(envKey.value, insertFails);
          r := if ok then envKey else None;
        case UseDB => r := stored;
        case Generate =>
          var ok := Insert(random, insertFails);
          r := if ok then Some(random) else None;
      }
    }
  }

  // ---- overlapping boots ----------------------------------------------------

  /** A boot that has read the stored key and not yet acted on it, or has finished. */
  datatype Boot = Reading(env: Env, seen: Option<Key>) | Booted(key: Key) | Refused

  datatype World = World(stored: Option<Key>, boots: map<int, Boot>)

  datatype Step =
    | Read(pid: int, env: Env, fails: bool)
    | Finish(pid: int, random: Key, fails: bool)

  /** One database round trip of one boot. A process reads once and then finishes. */
  function Next(w: World, s: Step): World {
    match s
    case Read(pid, env, fails) =>
      if pid in w.boots then w
      else w.(boots := w.boots[pid := if fails then Refused else Reading(env, w.stored)])
    case Finish(pid, random, fails) =>
      if pid !in w.boots || !w.boots[pid].Reading? || |random| != KEY_SIZE then w
      else
        match Decide(w.boots[pid].env, w.boots[pid].seen, random)
        case Fail => w.(boots := w.boots[pid := Refused])
        case Return(k) => w.(boots := w.boots[pid := Booted(k)])
        case Insert(k) =>
          if fails || w.stored.Some? then w.(boots := w.boots[pid := Refused])
          else World(Some(k), w.boots[pid := Booted(k)])
  }

  /** A boot given a master key in its environment finishes with that key or not at all, and not at all
      if another was stored when it read; one given none takes what it saw stored, or a new one. */
  lemma EnvKeyIsUsed(w: World, pid: int, random: Key, fails: bool)
    requires pid in w.boots && w.boots[pid].Reading? && |random| == 32
    ensures var env, seen := w.boots[pid].env, w.boots[pid].seen;
            var v := Next(w, Finish(pid, random, fails));
            && pid in v.boots
            && (v.boots[pid].Booted? ==>
                  match env
                  case Set(k) => k == Some(v.boots[pid].key) && |v.boots[pid].key| == 32 && (seen.Some? ==> seen == k)
                  case Unset => if seen.Some? then seen == Some(v.boots[pid].key) else v.boots[pid].key == random)
            && (!fails && w.stored == seen ==>
                  (v.boots[pid].Booted? <==>
                     (env.Set? ==> env.decoded.Some? && |env.decoded.value| == 32
                                   && (seen.Some? ==> seen == env.decoded))))
  {
  }

  function Run(w: World, steps: seq<Step>): World
    decreases |steps|
  {
    if steps == [] then w else Run(Next(w, steps[0]), steps[1..])
  }

  /** Whatever a boot has seen stored is still stored, and a finished boot has the stored key. */
  predicate Agreed(w: World) {
    && (w.stored.Some? ==> |w.stored.value| == KEY_SIZE)
    && forall pid | pid in w.boots ::
         match w.boots[pid]
         case Reading(_, seen) => seen.Some? ==> seen == w.stored
         case Booted(k) => w.stored == Some(k)
         case Refused => true
  }

  lemma StepAgrees(w: World, s: Step)
    requires Agreed(w)
    ensures Agreed(Next(w, s))
    ensures w.stored.Some? ==> Next(w, s).stored == w.stored
    ensures forall pid | pid in w.boots && w.boots[pid].Booted? ::
              pid in Next(w, s).boots && Next(w, s).boots[pid] == w.boots[pid]
  {
  }

  /** Over every run of boots, overlapping or not, with any environments and failures: the stored
      key is never overwritten, and every boot that succeeds has that key, of 32 bytes. */
  lemma {:induction false} OneKeyForever(w: World, steps: seq<Step>)
    requires Agreed(w)
    ensures var v := Run(w, steps);
            && Agreed(v) && (w.stored.Some? ==> v.stored == w.stored)
            && (forall pid | pid in v.boots && v.boots[pid].Booted? ::
                  v.stored == Some(v.boots[pid].key) && |v.boots[pid].key| == 32)
            && (forall pid | pid in w.boots && w.boots[pid].Booted? :: pid in v.boots && v.boots[pid] == w.boots[pid])
    decreases |steps|
  {
    if steps != [] {
      StepAgrees(w, steps[0]);
      OneKeyForever(Next(w, steps[0]), steps[1..]);
    }
  }

  /** So a value encrypted by one successful boot decrypts to itself in every other successful boot,
      earlier, later or concurrent - if and only if it did not look encrypted already. */
  lemma SecretsSurviveBoots(c: Cipher, steps: seq<Step>, p: int, q: int, nonce: seq<byte>, plain: string)
    requires Lawful(c) && |nonce| == NONCE_SIZE
    requires var bs := Run(World(None, map[]), steps).boots;
             p in bs && q in bs && bs[p].Booted? && bs[q].Booted?
    ensures var bs := Run(World(None, map[]), steps).boots;
            DecryptString(c, Some(bs[q].key), EncryptString(c, Some(bs[p].key), nonce, plain)) == Some(plain)
            <==> !IsEncrypted(plain)
  {
    OneKeyForever(World(None, map[]), steps);
    StringRoundTripIff(c, Run(World(None, map[]), steps).boots[p].key, nonce, plain);
  }
}
