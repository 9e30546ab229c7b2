/** The PID controller defined in rubber_cone_v2.py and rubber_cone_v4.py
    (identical in both). Neither planner's active code path calls it. */
module Pid {
  import opened Geometry

  datatype Pid = Pid(kp: real, ki: real, kd: real, prevError: real, integral: real)

  /** A fresh controller: no accumulated error, previous error 0. */
  function New(kp: real, ki: real, kd: real): Pid {
    Pid(kp, ki, kd, 0.0, 0.0)
  }

  /** One `compute(error)` call: the new controller state and the output. */
  function Compute(c: Pid, error: real): (r: (Pid, real))
    ensures r.0.kp == c.kp && r.0.ki == c.ki && r.0.kd == c.kd
    ensures r.0.prevError == error
    ensures r.0.integral - c.integral == error
    ensures r.1 == c.kp * error + c.ki * r.0.integral + c.kd * (error - c.prevError)
  {
    var integral := c.integral + error;
    var derivative := error - c.prevError;
    (c.(prevError := error, integral := integral),
     c.kp * error + c.ki * integral + c.kd * derivative)
  }

  /** The controller after feeding it `errors` in order. */
  function Run(c: Pid, errors: seq<real>): Pid
    decreases |errors|
  {
    if |errors| == 0 then c else Compute(Run(c, errors[..|errors| - 1]), errors[|errors| - 1]).0
  }

  /** After any run the integral term is the running sum of the errors fed
      in and the remembered error is the last one; the gains never change. */
  lemma {:induction false} RunAccumulates(c: Pid, errors: seq<real>)
    ensures Run(c, errors).integral == c.integral + Sum(errors)
    ensures |errors| > 0 ==> Run(c, errors).prevError == errors[|errors| - 1]
    ensures |errors| == 0 ==> Run(c, errors).prevError == c.prevError
    ensures Run(c, errors).kp == c.kp && Run(c, errors).ki == c.ki && Run(c, errors).kd == c.kd
  {
    if |errors| > 0 {
      RunAccumulates(c, errors[..|errors| - 1]);
      SumAppend(errors[..|errors| - 1], errors[|errors| - 1]);
      assert errors == errors[..|errors| - 1] + [errors[|errors| - 1]];
    }
  }

  /** On the first call of a fresh controller the derivative term sees the
      whole error, so the output is `(Kp + Ki + Kd) * error`. */
  lemma FirstCallOutput(kp: real, ki: real, kd: real, error: real)
    ensures Compute(New(kp, ki, kd), error).1 == (kp + ki + kd) * error
  {
  }
}
