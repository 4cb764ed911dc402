/** The dtype the random strategies compute in. Entries are exact reals in
    this model, so a dtype is only a tag; what is modelled is the choice. */
module Precision {

  datatype Device = Cpu | Accelerator

  datatype DType = Float16 | BFloat16 | Float32 | Float64

  /** `torch.bernoulli` has no float16 kernel on the CPU. */
  predicate BernoulliSupports(device: Device, dtype: DType)
  {
    !(device == Cpu && dtype == Float16)
  }

  /** `work_dtype` of `bernoulli` and `rank_magnitude`: off the CPU, or for a
      bfloat16 tensor, the tensor's own dtype; on the CPU everything else is
      computed in float32. */
  function WorkDtype(device: Device, dtype: DType): (w: DType)
    ensures BernoulliSupports(device, w)
    ensures device == Accelerator ==> w == dtype
    ensures device == Cpu && dtype == BFloat16 ==> w == BFloat16
    ensures device == Cpu && dtype != BFloat16 ==> w == Float32
  {
    if device != Cpu || dtype == BFloat16 then dtype else Float32
  }

  /** Choosing the work dtype again changes nothing, and a dtype the CPU
      kernel supports is kept unless it is a full-width float other than
      float32. */
  lemma WorkDtypeIdempotent(device: Device, dtype: DType)
    ensures WorkDtype(device, WorkDtype(device, dtype)) == WorkDtype(device, dtype)
    ensures device == Cpu ==> (WorkDtype(device, dtype) == dtype <==> dtype == BFloat16 || dtype == Float32)
  {
  }
}
